# aipanel: a verified model

aipanel runs AI phone calls. A SIP service bridges the caller's audio to a worker process; the worker
speaks through a TTS server, listens through an STT server, talks to a language model and calls tools; a
session manager keeps agents logged in to ViciDial; a panel ingests documents and compiles call scenarios.
This project models the logic of these services that carries state or arithmetic, and proves what it
keeps over every input, run or interleaving. Networks, models, databases, clocks and random choices
appear as parameters: sequences of what they answer.

| file | what it models |
|---|---|
| `Common.dfy` | optional values, subsequences, cutting into pieces, Python's `strip` |
| `FrameCodec.dfy`, `AudioBridge.dfy` | the frame codec, both frame readers, the SIP side of the audio socket |
| `DropOldest.dfy`, `AudioOut.dfy`, `MediaPath.dfy`, `MediaSteps.dfy` | drop-oldest queues, re-framing of TTS audio, the whole path from TTS to the caller as one step machine, and the objects taking its steps |
| `Recorder.dfy` | mixing both directions of a call into one WAV file |
| `CallIntake.dfy` | many workers competing for calls through Redis reservations with a TTL |
| `HeaderParser.dfy` | the one-pass SIP header reader |
| `Chunker.dfy`, `KbIngest.dfy` | sentence chunks with overlap, batches and rows of a knowledge-base document |
| `ScenarioGraph.dfy` | the scenario editor's compiler |
| `SttStream.dfy` | voice-activity segmentation of the STT stream |
| `Tools.dfy`, `Conversation.dfy` | tool dispatch, the conversation loop and the outcome of a call |
| `TranscriptWriter.dfy` | batched transcript flushing |
| `SessionModels.dfy`, `SessionWorker.dfy` | the ViciDial session: Redis form, login with backoff, heartbeats, mirror |
| `SessionSupervisor.dfy`, `Heartbeats.dfy` | reconciling workers with deployments and heartbeat tasks with workers |

Objects that the source updates in place are classes whose methods are tied to functions on values;
runs are then reasoned about on these functions. `dafny verify dfyconfig.toml` checks everything.

## Findings

Where the code does something else than its comments, documentation or tests say, the model follows the
code; each point is a lemma.

- Resuming a session from Redis. `start()` writes the new, empty record over the stored one before it
  reads it (session-mgr/src/aipanel_vici/session_worker.py:90-92), so it resumes only if that write fails
  (`SessionWorker.ResumedExactly`, `SessionWorker.StartLogsIn`). The test `test_resume_from_redis_skips_playwright`
  (session-mgr/tests/test_session_worker.py:190-239) expects the opposite.
- A worker whose login round has failed stays in error until it is stopped; "force re-login" by the
  supervisor or after an expired action is undone by one good heartbeat (`SessionWorker.ErrorIsFinal`,
  `SessionWorker.ForcedOnlyByFailingHeartbeat`).
- The gauge of sessions by status counts one too few for `logging_in` (`SessionWorker.GaugeLaw`).
- A deployment that goes and comes back between two heartbeat reconciles keeps its old worker's task
  (`Heartbeats.BoundUnlessGoneAndBack`). A database error makes the supervisor stop every worker
  (`SessionSupervisor.FetchedIds`).
- Reservations exclude double handling exactly if the key is deleted before it can expire; that the
  session has finished by then is not enough (`CallIntake.SafeExactlyBelowTtl`, `CallIntake.FinishingInTimeIsNotEnough`).
- A barge-in silences the call at once if and only if nothing has left the worker's queue and the TTS stream
  has no incomplete frame (`MediaPath.BargeInSilencesExactly`). What has left the queue can still be played, and a
  stream that ends without another chunk still sends its padded tail; nothing else is heard (`MediaPath.BargeInCutsSpeech`).
- Chunks are not bounded by the token target: one exceeds it exactly when the tail it repeats and its first new
  sentence together do (`Chunker.OverTargetExactly`, with both consequences for the input in `Chunker.ShortSentencesFit`
  and `Chunker.LongSentenceExceeds`). Vectors are zipped with chunks by position, so one short or
  long reply shifts all later ones (`KbIngest.OwnVectorsExactly`).
- Compiled scenario rules carry no conditions, and their yes and no branches are merged
  (`ScenarioGraph.BranchesAreMerged`).
- An end of speech that is heard only after the cap has cut its segment opens the next final
  (`SttStream.StrayEndOpensNextFinal`).
- A refused do-not-call request is announced and disposed as done (`Tools.DncIgnoresRefusal`). The apology
  after a failed completion promises a transfer, but no tool is dispatched (`Conversation.TurnLaw`).
- A failed follow-up completion leaves the later tool calls of its turn without an answer in the
  history (`Conversation.UnansweredCalls`).

## Model

| member | source | states |
|---|---|---|
| FrameCodec.BigEndianRoundTrip | sip/src/aipanel_sip/audio_bridge.py:78-83 | the 4-byte length survives packing and unpacking |
| FrameCodec.FrameLayout | sip/src/aipanel_sip/audio_bridge.py:78-83 | the bytes of a frame, most significant length byte first, and exactly when encoding fails |
| FrameCodec.FirstFrameOfEncoded | sip/src/aipanel_sip/audio_bridge.py:100-112 | an encoded frame followed by anything is read back, and nothing after it is touched |
| FrameCodec.NoFrameInPrefix | sip/src/aipanel_sip/audio_bridge.py:86-112 | a strict prefix of an encoded frame yields no frame |
| FrameCodec.DecodeEncode | sip/src/aipanel_sip/audio_bridge.py:78-112 | any list of frames is decoded from its encoding, whatever incomplete bytes follow |
| FrameCodec.CutStream | workers/src/aipanel_worker/sip_protocol.py:30-51 | a stream cut at any byte yields exactly the frames that lie before the cut |
| FrameCodec.Reencode | sip/src/aipanel_sip/audio_bridge.py:105-111 | decoding is undone by encoding except for headers of length 0, exactly |
| AudioBridge.RecvExact | sip/src/aipanel_sip/audio_bridge.py:86-97 | exactly the next n bytes, for any fragmentation, or None at end of stream or on an error |
| AudioBridge.ReadFrame | sip/src/aipanel_sip/audio_bridge.py:100-112 | the first frame of what is left of the stream, and only its bytes are consumed |
| AudioBridge.ReadAllFromSocket | sip/src/aipanel_sip/audio_bridge.py:86-112 | reading until None gives the frames of the bytes, however they are fragmented |
| AudioBridge.StreamReader.ReadAll | workers/src/aipanel_worker/sip_protocol.py:38-51 | the worker's reader gives the same frames |
| AudioBridge.ReadersAgree | workers/src/aipanel_worker/sip_protocol.py:30-51 | both readers return exactly the frames that were encoded |
| AudioBridge.AudioBridge.EnqueueInbound | sip/src/aipanel_sip/audio_bridge.py:290-296 | the 50 newest frames are kept and each loss is reported once |
| AudioBridge.AudioBridge.DequeueOutbound | sip/src/aipanel_sip/audio_bridge.py:298-304 | the oldest frame, or 320 zero bytes |
| AudioBridge.AudioBridge.WriteTurn | sip/src/aipanel_sip/audio_bridge.py:349-376 | what reaches the worker is an in-order selection of the frames received |
| AudioBridge.AudioBridge.ReadLoop | sip/src/aipanel_sip/audio_bridge.py:310-347 | while other threads take frames or shut down, exactly the frames before the first HANGUP, or up to the shutdown, are handled, with one hangup report unless the shutdown ended it |
| AudioBridge.ReadingLaw | sip/src/aipanel_sip/audio_bridge.py:298-334 | whatever the other threads do, the audio offered is played, queued or dropped, in order, and each digit is reported once |
| AudioBridge.ReadingUndisturbed | sip/src/aipanel_sip/audio_bridge.py:320-327 | when nobody plays meanwhile the queue keeps the newest of all the audio |
| AudioBridge.OfferMore | sip/src/aipanel_sip/audio_bridge.py:320-327 | handling frames in batches is handling them together, in the queue and in the drop count |
| AudioBridge.OfferOne | sip/src/aipanel_sip/audio_bridge.py:319-347 | only non-empty audio frames change the queue, only non-empty DTMF frames carry digits |
| DropOldest.QueueLaw | sip/src/aipanel_sip/audio_bridge.py:290-304 | over every run the queue is a suffix of everything pushed, within its cap, and pushed = popped + dropped + queued |
| DropOldest.NewestAppend | workers/src/aipanel_worker/audio_out.py:174-185 | offering two batches is offering their concatenation, in what is kept and what is given up |
| AudioOut.FramingIsLossless | workers/src/aipanel_worker/audio_out.py:148-152 | cutting into 320-byte frames loses and adds no byte |
| AudioOut.FramingAppend | workers/src/aipanel_worker/audio_out.py:141-152 | framing chunk by chunk gives the frames of the whole stream |
| AudioOut.TakenIsPrefix | workers/src/aipanel_worker/audio_out.py:141-148 | a stream is taken up to the first arrival that finds the cancel event set |
| AudioOut.StreamIsHeard | workers/src/aipanel_worker/audio_out.py:148-163 | a regular, uninterrupted stream is heard to its last byte and then less than a frame of silence, any other up to its last whole frame |
| AudioOut.AudioOutPipeline.EnqueueFrame | workers/src/aipanel_worker/audio_out.py:174-185 | the 200 newest frames are kept and each drop is counted |
| AudioOut.AudioOutPipeline.StreamTts | workers/src/aipanel_worker/audio_out.py:119-163 | however the audio is chunked, the frames are those of all bytes before a cancel, padded only on a regular end |
| AudioOut.AudioOutPipeline.ServeRequest | workers/src/aipanel_worker/audio_out.py:98-105 | whatever interrupted the request before, a request offers all frames of its clip or of its stream |
| AudioOut.AudioOutPipeline.EnqueueAudioBytes | workers/src/aipanel_worker/audio_out.py:165-172 | pre-rendered audio gives its padded frames, or none once called off |
| MediaPath.PlayoutIsOrderedSelection | workers/src/aipanel_worker/call_session.py:359-373 | over every interleaving the caller hears an in-order selection of 320-byte frames, and every frame made is accounted for |
| MediaPath.SocketDecodes | workers/src/aipanel_worker/call_session.py:366-368 | at any moment the bytes in the socket decode to exactly the frames in flight |
| MediaPath.NothingGivenUpNothingAltered | workers/src/aipanel_worker/audio_out.py:174-185 | without overflow and barge-in the path delays the speech but does not alter it |
| MediaPath.BargeInCutsSpeech | workers/src/aipanel_worker/call_session.py:404-415 | after a barge-in only frames past the worker's queue, and at most one padded tail, are heard until new speech begins |
| MediaPath.BargeInSilencesExactly | workers/src/aipanel_worker/call_session.py:404-415 | a barge-in silences the path at once if and only if nothing is past the worker's queue and no incomplete frame waits; otherwise more can be heard |
| MediaPath.SpeechIsMade | workers/src/aipanel_worker/audio_out.py:98-163 | speech that begins while nothing speaks, also after a barge-in, is made: exactly the padded frames of all its bytes |
| MediaPath.ClipIsMade | workers/src/aipanel_worker/audio_out.py:98-103 | a pre-rendered clip is made in full, also after a barge-in |
| MediaPath.FailedSpeechIsCut | workers/src/aipanel_worker/audio_out.py:153-156 | a stream that fails makes its whole frames only |
| MediaPath.StopEndsSpeech | workers/src/aipanel_worker/audio_out.py:81-83 | after a stop nothing is made any more but the tail of a stream still open |
| MediaSteps.BeginsStream | workers/src/aipanel_worker/audio_out.py:98-98 | the pipeline object takes the begin step: the cancel event is cleared |
| MediaSteps.BargesIn | workers/src/aipanel_worker/call_session.py:409-415 | setting the event and draining the queue is the barge-in step |
| MediaSteps.TakesChunk | workers/src/aipanel_worker/audio_out.py:141-152 | the pipeline object takes the chunk step of the path |
| MediaSteps.EndsStream | workers/src/aipanel_worker/audio_out.py:153-163 | the pipeline object takes the end or failure step of the path |
| MediaSteps.SpeaksClip | workers/src/aipanel_worker/audio_out.py:98-103 | the pipeline object takes the step of a pre-rendered clip |
| MediaSteps.PlaysTick | sip/src/aipanel_sip/audio_bridge.py:298-304 | the bridge object plays the frame the tick step plays, or silence |
| MediaSteps.HandlesArrival | sip/src/aipanel_sip/audio_bridge.py:319-327 | the bridge object handles exactly the frame the receive step delivers, with the same drops |
| Recorder.PackUnpack | workers/src/aipanel_worker/recorder.py:110-118 | int16 packing is undone by unpacking |
| Recorder.SampleIsLittleEndian | workers/src/aipanel_worker/recorder.py:111-112 | a sample is the signed 16-bit number whose low byte comes first |
| Recorder.SaturationIsClosest | workers/src/aipanel_worker/recorder.py:113-117 | saturation gives the representable number closest to the sum |
| Recorder.SilentSide | workers/src/aipanel_worker/recorder.py:122-137 | if one side never speaks the file is the other side's stream, byte for byte |
| Recorder.Recorder.EmitPaired | workers/src/aipanel_worker/recorder.py:100-120 | both buffers lose the same whole samples, and their saturated sums are appended |
| Recorder.Recorder.Close | workers/src/aipanel_worker/recorder.py:55-66 | the file is the recording of the two streams, the shorter padded with silence |
| Recorder.Record | workers/src/aipanel_worker/recorder.py:72-137 | any interleaving of writes gives the recording of the two concatenated streams |
| Recorder.RecordingIsUnique | workers/src/aipanel_worker/recorder.py:107-118 | two streams have only one recording, byte for byte |
| Recorder.RecordingIsSymmetricAndEven | workers/src/aipanel_worker/recorder.py:100-135 | the directions are interchangeable and an odd trailing byte is never heard |
| Recorder.InterleavingIrrelevant | workers/src/aipanel_worker/recorder.py:72-98 | how writes interleave and are fragmented leaves no trace in the file |
| CallIntake.ReservationsExclude | workers/src/aipanel_worker/main.py:123-133 | in every run whose keys are deleted before they can expire no call is handled twice, and running sessions own their keys |
| CallIntake.DeleteHitsOwnKey | workers/src/aipanel_worker/main.py:129-133 | the unconditional delete then removes its own session's key and nobody else's |
| CallIntake.SafeExactlyBelowTtl | workers/src/aipanel_worker/main.py:207-217 | intake is exclusive for a time limit on sessions if and only if the limit is below the TTL |
| CallIntake.OverstayingIsUnsafe | workers/src/aipanel_worker/main.py:123-126 | with a limit of the TTL or more two workers can run the same call |
| CallIntake.FinishingInTimeIsNotEnough | workers/src/aipanel_worker/main.py:212-217 | a session that finishes in time but whose delete is late can cost another session its key |
| CallIntake.PermitsConserved | workers/src/aipanel_worker/main.py:183-221 | in every run free permits and permits held add up to the concurrency |
| CallIntake.ConcurrencyBound | workers/src/aipanel_worker/main.py:165-184 | a worker never runs more sessions than its concurrency |
| CallIntake.QuietForever | workers/src/aipanel_worker/main.py:183-184 | a worker that is gone, or shutting down and at the top of its loop, never starts a session again |
| CallIntake.ShutdownQuiets | workers/src/aipanel_worker/main.py:183-210 | a shutdown quiets an idle worker at once and a waiting one with the job it waits for |
| CallIntake.CrashLeavesKeys | workers/src/aipanel_worker/main.py:123-133 | a worker that dies leaves no session but all its reservations |
| HeaderParser.ParseHeaders | sip/src/aipanel_sip/header_parser.py:22-76 | the single pass computes the two-pass meaning on every message |
| HeaderParser.EveryHeaderCounts | sip/src/aipanel_sip/header_parser.py:40-48 | every known header is in the result |
| HeaderParser.LastOccurrenceCounts | sip/src/aipanel_sip/header_parser.py:29-32 | a known header has the value of its last occurrence |
| HeaderParser.SettingExactly | sip/src/aipanel_sip/header_parser.py:61-73 | a header means the stripped rest after its first colon with its continuation lines; a line without a colon means nothing |
| HeaderParser.KnownHeaders | sip/src/aipanel_sip/header_parser.py:13-19 | the five known names and what they are called, no others |
| HeaderParser.KnownInAnyCase | sip/src/aipanel_sip/header_parser.py:44-46 | names are recognized in mixed case |
| HeaderParser.StartLineSkipped | sip/src/aipanel_sip/header_parser.py:56-57 | request and status lines are passed over wherever they stand |
| HeaderParser.BodyIsIgnored | sip/src/aipanel_sip/header_parser.py:53-55 | nothing after the first empty line matters |
| HeaderParser.CrlfAndLfAlike | sip/src/aipanel_sip/header_parser.py:50-51 | CRLF and LF line ends mean the same |
| HeaderParser.RenderedHeadersComeBack | sip/src/aipanel_sip/header_parser.py:22-76 | any list of known headers, in any letter case and folded with any blanks and tabs, is read back with its values |
| Chunker.Chunk | panel/backend/src/aipanel/jobs/kb_ingest_job.py:103-139 | the texts are those of runs of sentences, each filled up to the target, each beginning with the longest tail within the overlap |
| Chunker.Tail | panel/backend/src/aipanel/jobs/kb_ingest_job.py:126-135 | the longest suffix whose token sum is at most the overlap |
| Chunker.ChunksAdvance | panel/backend/src/aipanel/jobs/kb_ingest_job.py:122-139 | chunk ends strictly increase and each chunk has a new sentence |
| Chunker.OverlapsRemoved | panel/backend/src/aipanel/jobs/kb_ingest_job.py:122-139 | without the overlaps the chunks are the sentence list |
| Chunker.ChunkingIsUnique | panel/backend/src/aipanel/jobs/kb_ingest_job.py:116-139 | the structure determines the chunks |
| Chunker.ShortPassagesSurvive | panel/backend/src/aipanel/jobs/kb_ingest_job.py:108-109 | every passage of at most `overlap` tokens lies whole in some chunk |
| Chunker.ChunkSizeBound | panel/backend/src/aipanel/jobs/kb_ingest_job.py:120-139 | a chunk has at most max(target, overlap + its largest sentence) tokens |
| Chunker.OverTargetExactly | panel/backend/src/aipanel/jobs/kb_ingest_job.py:122-137 | a chunk exceeds the target if and only if its repeated tail and its first new sentence together do |
| Chunker.ShortSentencesFit | panel/backend/src/aipanel/jobs/kb_ingest_job.py:122-137 | if every sentence fits in target minus overlap, no chunk exceeds the target |
| Chunker.LongSentenceExceeds | panel/backend/src/aipanel/jobs/kb_ingest_job.py:30-30 | if a sentence exceeds the target, so does its chunk |
| Chunker.StoredTokensBound | panel/backend/src/aipanel/jobs/kb_ingest_job.py:98-100 | the stored count of n joined sentences is at most their sum + n - 1, below twice the sum |
| Chunker.TokensExactly | panel/backend/src/aipanel/jobs/kb_ingest_job.py:98-100 | one token for each four whole characters, and at least one |
| Chunker.JoinedConcat | panel/backend/src/aipanel/jobs/kb_ingest_job.py:125-125 | joining keeps the order and puts one blank between two sentences |
| Chunker.SentencesStayWhole | panel/backend/src/aipanel/jobs/kb_ingest_job.py:30-30 | each sentence stands whole in a chunk's text, after the sentences before it and one blank each, whatever the target |
| KbIngest.Ingest | panel/backend/src/aipanel/jobs/kb_ingest_job.py:252-275 | one failed batch stores nothing; otherwise chunk i is stored with the i-th vector of all replies |
| KbIngest.OwnVectorsExactly | panel/backend/src/aipanel/jobs/kb_ingest_job.py:256-275 | every chunk gets its own vector if and only if no reply but the last is short or long |
| ScenarioGraph.Walk | panel/frontend/src/components/AgentEditor/ScenariosTab.tsx:200-222 | the shared list grows by the preorder below the node |
| ScenarioGraph.LookupExactly | panel/frontend/src/components/AgentEditor/ScenariosTab.tsx:197-197 | an id names the last node that has it |
| ScenarioGraph.WalkFollowsPaths | panel/frontend/src/components/AgentEditor/ScenariosTab.tsx:200-222 | the collected actions are those at the ends of all directed paths, each once, in edge order |
| ScenarioGraph.WalkTerminatesExactly | panel/frontend/src/components/AgentEditor/ScenariosTab.tsx:200-222 | the recursion ends if and only if no cycle can be reached |
| ScenarioGraph.CompileGraph | panel/frontend/src/components/AgentEditor/ScenariosTab.tsx:194-238 | one rule per edge leaving a trigger, in order: its trigger as when, its intent if not empty, no conditions, and the actions at the ends of all paths |
| ScenarioGraph.RuleFollowsPaths | panel/frontend/src/components/AgentEditor/ScenariosTab.tsx:224-234 | a rule does the actions at the ends of all directed paths that begin with its edge, once per path, in order |
| ScenarioGraph.EveryTriggerEdgeOnce | panel/frontend/src/components/AgentEditor/ScenariosTab.tsx:224-226 | every edge leaving a trigger has exactly one rule, ordered by node and edge |
| ScenarioGraph.BranchesAreMerged | panel/frontend/src/components/AgentEditor/ScenariosTab.tsx:205-213 | no rule has conditions, and rules do not depend on what conditions test or on yes and no |
| ScenarioGraph.InvertIsAPairing | panel/frontend/src/components/AgentEditor/ScenariosTab.tsx:240-248 | equals and contains, gt and lt are swapped, and only `exists` is its own inverse |
| SttStream.StreamState.HandleAudio | stt-server/src/aipanel_stt/streaming.py:185-238 | each call handles exactly the blocks completed by it, and fewer than 1024 bytes stay pending |
| SttStream.StreamState.Finalize | stt-server/src/aipanel_stt/streaming.py:311-314 | the end message sends an open segment as a last final |
| SttStream.HandleStream | stt-server/src/aipanel_stt/streaming.py:120-140 | for any list of audio messages followed by the end message, what is sent depends on the concatenated bytes only |
| SttStream.EndSendsOpenSegment | stt-server/src/aipanel_stt/streaming.py:311-314 | the end message adds one final exactly if a segment is open, with its audio so far |
| SttStream.FinalsAreSegments | stt-server/src/aipanel_stt/streaming.py:208-229 | the finals of every run are the segments heard, in order, with their exact audio and 32 ms a block |
| SttStream.SegmentationIsUnique | stt-server/src/aipanel_stt/streaming.py:211-229 | what was heard determines the segments |
| SttStream.CleanExactlyWithoutStrays | stt-server/src/aipanel_stt/streaming.py:208-220 | a final is one run from start to close if and only if no end was heard since the previous final |
| SttStream.AlternatingFinals | stt-server/src/aipanel_stt/streaming.py:185-246 | when starts and ends alternate and the cap never fires, finals are exactly the start..end runs |
| SttStream.EachBlockAtMostOnce | stt-server/src/aipanel_stt/streaming.py:208-246 | each block lands in at most one final, in stream order |
| SttStream.PartialsGrow | stt-server/src/aipanel_stt/streaming.py:231-238 | a partial transcribes the beginning of what the next message transcribes |
| SttStream.PartialsExactly | stt-server/src/aipanel_stt/streaming.py:231-238 | with every block of every run a partial is sent if and only if a segment stays open, the interval has passed since its last due block and it has eight blocks; it has the segment's audio so far |
| SttStream.StrayEndOpensNextFinal | stt-server/src/aipanel_stt/streaming.py:208-229 | if the cap cuts a segment and an end is heard next, the next final begins with the end's block in every continuation |
| SttStream.StrayEndAfterCap | stt-server/src/aipanel_stt/streaming.py:208-229 | a run in which this happens, with its two finals |
| SttStream.BlocksLast32Ms | stt-server/src/aipanel_stt/streaming.py:299-299 | n blocks are reported as 32 n ms |
| Tools.ToolContext.Run | workers/src/aipanel_worker/tools.py:281-323 | every call is counted once, only a tool that returned is written to the transcript |
| Tools.RecordedExactly | workers/src/aipanel_worker/tools.py:281-323 | the transcript records a call if and only if a listed tool got an object and did not raise, with its result |
| Tools.TerminalExactly | workers/src/aipanel_worker/tools.py:191-267 | a result ends the call if and only if a terminal tool got an object and its service went along |
| Tools.DispatchLaw | workers/src/aipanel_worker/tools.py:281-323 | a terminal result is successful, in TERMINAL_TOOLS, with acknowledgement and disposition; any other carries feedback |
| Tools.TerminalTable | workers/src/aipanel_worker/tools.py:191-267 | tool by tool, the disposition and the arguments kept |
| Tools.SearchShowsFive | workers/src/aipanel_worker/tools.py:177-188 | a search shows at most its first five results, and is not made with a blank query |
| Tools.BulletsInOrder | workers/src/aipanel_worker/tools.py:186-186 | results are shown line by line, in order |
| Tools.DncIgnoresRefusal | workers/src/aipanel_worker/tools.py:213-223 | the answer of the do-not-call service makes no difference |
| Conversation.ConversationLoop.HandleLlmResponse | workers/src/aipanel_worker/conversation.py:222-281 | the calls up to the first that stops the turn are dispatched, once each |
| Conversation.ConversationLoop.Run | workers/src/aipanel_worker/conversation.py:127-173 | after any events the loop's whole state is that of the step function the run laws are about |
| Conversation.ConversationLoop.SetSystemPrompt | workers/src/aipanel_worker/conversation.py:108-112 | the system message is replaced or inserted |
| Conversation.ConversationLoop.EnqueueOpener | workers/src/aipanel_worker/conversation.py:114-118 | a non-empty opener joins the history and the speech queue |
| Conversation.PromptIsFirstAndOnly | workers/src/aipanel_worker/conversation.py:108-112 | the prompt is the only system message and the rest of the history stays |
| Conversation.TurnLaw | workers/src/aipanel_worker/conversation.py:144-173 | the history only grows, tool answers match a prefix of the calls in order, completions are 1 + the searches handled, and how a turn ends the call |
| Conversation.AllAnsweredExactly | workers/src/aipanel_worker/conversation.py:244-281 | all calls are answered if and only if none but the last stops the turn |
| Conversation.UnansweredCalls | workers/src/aipanel_worker/conversation.py:269-274 | calls left unanswered while the call goes on come from a failed follow-up |
| Conversation.RunLaw | workers/src/aipanel_worker/conversation.py:127-173 | over every run one system message, a growing history, call_ended exactly with a terminal result |
| Conversation.SpeechLaw | workers/src/aipanel_worker/conversation.py:222-314 | in every run the history and the utterances are those told from the events alone; what was taken and what waits are these in order, the others were refused, none while fewer than sixteen wait |
| Conversation.LineLaw | workers/src/aipanel_worker/conversation.py:287-302 | the law of a bounded queue that refuses when full: order, conservation, and when the first refusal comes |
| Conversation.StopEndsLoop | workers/src/aipanel_worker/conversation.py:127-135 | a stop ends the loop at the latest after the turn under way |
| Conversation.NothingAfterTerminal | workers/src/aipanel_worker/conversation.py:257-262 | the terminal result is set at most once and nothing happens after it |
| Conversation.OutcomeLaw | workers/src/aipanel_worker/call_session.py:655-661 | the outcome is abandoned, error or a terminal tool's name, and a disposition is recorded |
| Conversation.RecordedOutcome | workers/src/aipanel_worker/call_session.py:567-569 | told from the events alone: abandoned, an error after a failed completion, or the tool that ended the call with its disposition |
| Conversation.SetupLaw | workers/src/aipanel_worker/call_session.py:246-250 | the setup of a call establishes what runs keep |
| TranscriptWriter.TranscriptWriter.WriteEvent | workers/src/aipanel_worker/transcript_writer.py:105-111 | an event joins the end of the queue |
| TranscriptWriter.TranscriptWriter.PutMarker | workers/src/aipanel_worker/transcript_writer.py:84-85 | a stop puts the marker behind everything queued |
| TranscriptWriter.TranscriptWriter.FlushLoopRound | workers/src/aipanel_worker/transcript_writer.py:158-174 | an item joins the batch, which is flushed at 50, on a timeout and on the stop marker |
| TranscriptWriter.FlushLaw | workers/src/aipanel_worker/transcript_writer.py:158-174 | for every schedule flushed, batched and queued events are what was queued before the stop, in order, batches of 1 to 50 |
| TranscriptWriter.FlushesWhenDue | workers/src/aipanel_worker/transcript_writer.py:158-184 | timeouts and the stop marker leave nothing in the batch, events are flushed exactly when fifty are there |
| TranscriptWriter.DrainReturns | workers/src/aipanel_worker/transcript_writer.py:158-174 | a flusher given its items gets to the stop marker and returns with everything before it flushed |
| TranscriptWriter.ReturnedMeansFlushed | workers/src/aipanel_worker/transcript_writer.py:168-170 | a returned flusher has flushed exactly the events before the stop marker |
| SessionModels.RoundTripExactly | session-mgr/src/aipanel_vici/models.py:103-142 | a record comes back from Redis if and only if its last call id is not empty |
| SessionModels.InverseExists | session-mgr/src/aipanel_vici/models.py:103-142 | printing and parsing of doubles, integers and cookies can be inverse, as the round trips assume |
| SessionModels.StatusRoundTrip | session-mgr/src/aipanel_vici/models.py:16-22 | every status is read back from its value |
| SessionWorker.Worker.LoginWithBackoff | session-mgr/src/aipanel_vici/session_worker.py:233-266 | the login round as a function of what the attempts bring |
| SessionWorker.Worker.Beat | session-mgr/src/aipanel_vici/session_worker.py:125-151 | the whole new state after a heartbeat |
| SessionWorker.Worker.Begin | session-mgr/src/aipanel_vici/session_worker.py:88-94 | the whole new state after a start |
| SessionWorker.Worker.Action | session-mgr/src/aipanel_vici/session_worker.py:176-227 | an action fails without a session, raises the count if expired, and else sets its status |
| SessionWorker.Worker.CallInfo | session-mgr/src/aipanel_vici/session_worker.py:157-166 | the last call id changes only for a bridged call with a unique id |
| SessionWorker.Worker.End | session-mgr/src/aipanel_vici/session_worker.py:96-119 | the whole new state after a stop |
| SessionWorker.LoginRoundLaw | session-mgr/src/aipanel_vici/session_worker.py:233-266 | attempts, sleeps, final status and session of a login round, for its first success and for none |
| SessionWorker.ResumedExactly | session-mgr/src/aipanel_vici/session_worker.py:268-315 | a new worker resumes if and only if its first write fails, the read does not, the hash is usable and the heartbeat good |
| SessionWorker.StartLogsIn | session-mgr/src/aipanel_vici/session_worker.py:88-94 | while Redis works starting always logs in anew |
| SessionWorker.MirrorLaw | session-mgr/src/aipanel_vici/session_worker.py:349-370 | at every operation boundary the Redis hash agrees with the record, except for the count of failures |
| SessionWorker.StartMirrors | session-mgr/src/aipanel_vici/session_worker.py:88-94 | a start establishes the mirror |
| SessionWorker.ReachableRoundTrip | session-mgr/src/aipanel_vici/models.py:103-142 | every reachable record is what its Redis form reads back as |
| SessionWorker.CountLaw | session-mgr/src/aipanel_vici/session_worker.py:125-151 | in every run without a stop, heartbeats, actions and supervisor marks alike, the count and the presence of a session are what the operations say |
| SessionWorker.SessionDroppedExactly | session-mgr/src/aipanel_vici/session_worker.py:334-343 | each operation of such a run either is a failing heartbeat that takes the count to three, drops the session and runs a login round, or keeps session and attempts |
| SessionWorker.SessionSurvives | session-mgr/src/aipanel_vici/session_worker.py:125-151 | as long as no heartbeat takes the count to three the session is the same one |
| SessionWorker.ReloginExactly | session-mgr/src/aipanel_vici/session_worker.py:334-343 | a run without a stop logs in anew if and only if some heartbeat in it takes the count to three |
| SessionWorker.ReloginExactlyAfterThree | session-mgr/src/aipanel_vici/session_worker.py:334-343 | for heartbeats alone that is: if and only if three in a row fail |
| SessionWorker.RecordLaw | session-mgr/src/aipanel_vici/session_worker.py:125-227 | in every run without a stop, failures, status, last call id and last heartbeat are what the operations say |
| SessionWorker.StopIsFinal | session-mgr/src/aipanel_vici/session_worker.py:96-119 | a stopped worker is logged out, without a session and without its hash, whatever follows |
| SessionWorker.StoppedDoesNotLogIn | session-mgr/src/aipanel_vici/session_worker.py:235-237 | a login round of a stopped worker does nothing |
| SessionWorker.LoginIsMirrored | session-mgr/src/aipanel_vici/session_worker.py:317-332 | after a login the hash has the session, field by field |
| SessionWorker.StatusIsMirrored | session-mgr/src/aipanel_vici/session_worker.py:349-368 | every change of status can be read from the hash |
| SessionWorker.ResumeRestores | session-mgr/src/aipanel_vici/session_worker.py:268-295 | a stored record is resumed if and only if it has cookies and an extension, and then as the very session stored |
| SessionWorker.StartRuns | session-mgr/src/aipanel_vici/session_worker.py:88-94 | a start establishes what these laws assume of a running worker |
| SessionWorker.ForcedOnlyByFailingHeartbeat | session-mgr/src/aipanel_vici/session_worker.py:372-377 | a raised count leads to a login if and only if the next heartbeat fails |
| SessionWorker.ErrorIsFinal | session-mgr/src/aipanel_vici/session_worker.py:125-127 | without a session nothing but the count of failures changes until a stop |
| SessionWorker.GaugeLaw | session-mgr/src/aipanel_vici/session_worker.py:349-360 | in every run of a new worker the gauge is one too low for `logging_in` |
| SessionSupervisor.FetchedIds | session-mgr/src/aipanel_vici/session_supervisor.py:174-212 | the ids fetched are those of decryptable rows, none on a database error |
| SessionSupervisor.Supervisor.Tick | session-mgr/src/aipanel_vici/session_supervisor.py:109-168 | worker keys equal the ids fetched, kept ids keep their object, departed workers are stopped, stale ones marked and given a heartbeat |
| SessionSupervisor.StaleSessionsAreForced | session-mgr/src/aipanel_vici/session_supervisor.py:156-168 | a session silent for sixty seconds logs in anew if its next heartbeat fails, any other is left alone |
| Heartbeats.Scheduler.ReconcileTasks | session-mgr/src/aipanel_vici/heartbeat.py:61-75 | one task per worker, running tasks are never rebound, departed ones are cancelled |
| Heartbeats.TickAndReconcile | session-mgr/src/aipanel_vici/heartbeat.py:61-75 | a tick and a reconcile leave every task bound to the registered worker |
| Heartbeats.BoundExactly | session-mgr/src/aipanel_vici/heartbeat.py:61-75 | a reconcile leaves all tasks bound if and only if worker and task agreed wherever both were there |
| Heartbeats.SeparatedTicksStayBound | session-mgr/src/aipanel_vici/heartbeat.py:38-47 | with a reconcile between any two ticks, every reconcile leaves one task per registered worker |
| Heartbeats.TicksOnce | session-mgr/src/aipanel_vici/session_supervisor.py:109-154 | the supervisor object takes the tick step, fresh workers being new objects |
| Heartbeats.ReconcilesOnce | session-mgr/src/aipanel_vici/heartbeat.py:61-75 | the scheduler object takes the reconcile step |
| Heartbeats.BoundMeansSameObjects | session-mgr/src/aipanel_vici/heartbeat.py:64-75 | bound means that every task beats the very worker object registered |
| Heartbeats.BoundUnlessGoneAndBack | session-mgr/src/aipanel_vici/heartbeat.py:64-75 | in every reachable system, after ticks without a reconcile the next one binds all tasks if and only if no deployment had gone and come back |

## Left out

- FastAPI routes, React components, configuration loading, analytics SQL, prompt templates: no algorithm of their own.
- PJSIP, Playwright, httpx, Redis, Postgres, Whisper, TTS and the voice-activity model: represented by what they answer.
- G.711 and resampling of the caller's audio towards STT: foreign code.
- JSON, float and UUID text: taken as inverse print and parse pairs (`SessionModels.Inverse`), over doubles for clock readings; the rounding of a difference of two readings.
- The wording of acknowledgements, feedback and the apology: short texts stand for them.
- The sentence-splitting expressions of the chunker: the model starts from any list of sentences.
- Document parsing by file type in the ingest job, and the status updates in the database around it.
- Vectors as pgvector text (`_vec_literal`): float formatting.
- The text of transcriptions and the stability of partials: an STT message is known by the audio it transcribes.
- An exception of the recognizer or the language-model client that its caller does not catch: it ends the connection or the loop.
- Random choices: the filler word is a parameter, its minimum gap is modelled; the response delay has no length.
- The barge-in decision itself (words, stability, duration): a barge-in may come at any time.
- Interleavings inside one operation of a session worker (a login still running when `stop()` is called): operations run one after the other.
- The 24-hour expiry of the session hash, and the lock around agent actions.
- The bounded wait for queued speech before a terminal tool ends the call: it changes neither history nor result.
- The five-second limit on stopping the transcript writer, after which the flusher is cancelled.
- The poll and beat intervals of supervisor and scheduler: ticks and reconciles come in any order, a tick as one step.
- The drain phase at worker shutdown with its deadline: a worker that is killed is a crash of the intake model.
- Threads running truly at once: queue operations under the lock are steps, and what other threads do during one read of the audio bridge comes as one lump.
- HeaderParser.ParseHeaders: lower-casing is ASCII only; no known header name has a letter whose Unicode variants fold to it.
- AudioOut.AudioOutPipeline.StreamTts: nobody takes from the queue during one call; every interleaving with the consumer is covered by the step machine in `MediaPath.dfy`.
