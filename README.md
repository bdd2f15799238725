# Scribe core in Dafny

Scribe is a speech-to-text service. A daemon (`ScribeDaemon`) holds a Whisper
model, records the microphone and streams transcriptions to clients over a
Unix socket. This project models the three pieces of sequential logic at its
heart and proves what they guarantee:

- **The segmentation engine.** `StreamingRecorder` in `src/scribe/daemon.py`
  and its copy in `src/scribe/main.py` cut a running int16 sample buffer into
  100 ms frames. They run a Silence/Speech state machine over those frames and
  finalize the speech accumulator on enough silence, on reaching the maximum
  length, or on stop. The finalized accumulator is gated again by the energy
  test over the whole buffer. In fixed-chunk mode the buffer is cut into
  overlapping chunks instead. `WindowsAudioRecorder` in `src/scribe/main.py`
  is the sounddevice variant. It differs in the silence test, in where the
  maximum check runs, and in emitting without the whole-buffer gate.
- **The daemon's command state machine.** This covers `configure`,
  `start_recording`, `stop_recording`, `get_status` and `shutdown`, together
  with the `recording` and `running` flags, the configuration merge and the
  broadcasts of the transcription worker.
- **The socket protocol.** On the server side: command dispatch, the handler
  registry, one reply per received message, and the client list kept by
  accept, disconnect and broadcast. On the client side: the `connected`
  guards, and the streaming client's start/stop flags and classification of
  incoming messages.

Files and modules:

| file | module | contents |
|---|---|---|
| values.dfy | `Values` | decoded JSON values, messages, Python truthiness, `str()` of numbers, reply shapes |
| energy.dfy | `Energy` | the RMS-above-threshold test as exact integer arithmetic |
| vad_spec.dfy | `VadSpec` | `StreamingRecorder` segmentation as pure functions, with its invariants and properties |
| streaming_recorder.dfy | `Streaming` | class `StreamingRecorder`: fields, frame loop and queue loop, proved to compute `VadSpec` |
| windows_recorder.dfy | `Windows` | `WindowsAudioRecorder`: spec functions, class, and how it differs from `StreamingRecorder` |
| ipc.dfy | `Ipc` | `ScribeIPCServer`, `ScribeIPCClient`, `ScribeStreamingClient` |
| daemon.dfy | `Daemon` | class `ScribeDaemon`, configuration merge, `str.strip()`, transcription events |

Each class method is proved against a specification function of the old
state and the inputs. The properties the source promises are lemmas about
those functions:

- frame slicing;
- the accumulator invariant;
- finalization triggers and outcomes;
- the counters;
- overlap between fixed chunks;
- dispatch outcomes;
- broadcast survivors;
- stream classification.

How the inputs are represented:

- The audio queue is a sequence of blocks, plus the error signal `None`.
- The stop event is a boolean parameter. A call that would wait on an empty
  queue returns `Blocked`. The whole state stays in fields, so the next call
  continues where the source would.
- Send results on sockets, connection attempts and received data are
  parameters.
- The recorder, the model and the IPC server are the daemon's collaborators.
  The daemon's view of them is three fields: the recorder parameters it
  created, the name of the model it loaded, and the messages it broadcast.

## Model

| member | source | states |
|---|---|---|
| Values.NatToDecimal | src/scribe/ipc.py:186 | `str()` of a natural number is a non-empty string of decimal digits with no leading zero |
| Values.DecimalRoundTrip | src/scribe/ipc.py:186 | the decimal text of a number denotes that number again, so an "Unknown command" reply names a numeric command exactly |
| Energy.LoudIsMeanSquareTest | src/scribe/daemon.py:327-333 | the integer test holds exactly when the threshold is negative or the mean square of the normalised samples exceeds the threshold squared, which is `sqrt(mean(x**2))/unit > t` without the square root |
| Energy.Constant | src/scribe/daemon.py:327-333 | a constant frame has the requested length and every sample equals the amplitude |
| Energy.SumSquaresConstant | src/scribe/daemon.py:330 | the energy of a constant frame of n samples is n times the amplitude squared |
| Energy.ConstantFrameLoudness | src/scribe/daemon.py:331-333 | a steady tone has audio exactly when its normalised level is strictly above the threshold; a level exactly at the threshold counts as silence |
| Energy.SumSquaresAppend | src/scribe/daemon.py:330 | the energy of a concatenation is the sum of the parts' energies |
| Energy.LoudJoinHasLoudPart | src/scribe/daemon.py:284 | a concatenated buffer that passes the energy test has a part that passes it |
| Energy.Scaled | src/scribe/main.py:370-371 | scaling multiplies every sample by the factor and keeps the length |
| Energy.SumSquaresScaled | src/scribe/main.py:370-371 | scaling the samples by k scales the energy by k squared |
| Energy.LoudScaleInvariant | src/scribe/main.py:370-371 | scaling samples and unit by the same factor leaves the verdict unchanged, so the int16 test divided by 32768 and the raw float test agree on the same signal |
| VadSpec.TruncDiv | src/scribe/daemon.py:75-82 | `int()` of a quotient truncates toward zero: the result brackets the quotient from below for non-negative values and from above for negative ones |
| VadSpec.Finalize | src/scribe/daemon.py:278-325 | an empty accumulator returns nothing and changes nothing; otherwise the four VAD fields reset, the total rises by one, and a chunk with this reason and exactly the accumulated samples is returned exactly when the whole accumulator passes the energy test |
| VadSpec.DrainShape | src/scribe/daemon.py:213-216 | the frame loop removes a whole number of frames from the front of the buffer, in order, and leaves less than a frame unless a chunk is returned first |
| VadSpec.CollectShape | src/scribe/daemon.py:197-210 | queue items are taken from the front of the queue; a call that finds the queue empty has taken all of it |
| VadSpec.InitialInv | src/scribe/daemon.py:83-98 | a freshly constructed recorder satisfies the accumulator invariant |
| VadSpec.FinalizeFacts | src/scribe/daemon.py:280-325 | finalizing keeps the invariant; `chunks_with_audio` rises exactly when a chunk is returned, and `chunks_skipped_silence` when a non-empty accumulator is skipped; the per-reason counters rise with their reason |
| VadSpec.StepTransitions | src/scribe/daemon.py:221-254 | a speech frame is appended, sets in-speech and zeroes the silence count; a silent frame in speech is appended and increments the count; a silent frame outside speech changes nothing |
| VadSpec.StepLoudFacts | src/scribe/daemon.py:221-230 | a speech frame keeps the invariant, and any chunk it completes is the accumulator with this frame and passes the energy test |
| VadSpec.StepPauseFacts | src/scribe/daemon.py:232-251 | a silent frame inside speech keeps the invariant; a chunk with reason silence is returned only once `frames * frame_size / sample_rate >= vad_silence_duration` |
| VadSpec.StepFacts | src/scribe/daemon.py:213-261 | one frame keeps the invariant. A completed chunk is the accumulator plus this frame and passes the energy test. A silence chunk ends on a silent frame whose silence has lasted long enough. A max-duration chunk reaches the maximum. No chunk holds more than the maximum plus one frame |
| VadSpec.MaxReachedFinalizes | src/scribe/daemon.py:213-261 | the converse of the maximum bound: a frame that extends an utterance (loud, or silent without ending the pause) and brings it to `vad_max_samples` finalizes the accumulator with this frame, reason `max_duration`. The state is cleared and one chunk is counted; the chunk is emitted exactly when it passes the energy test, and then `vad_chunks_by_max_duration` rises by one |
| VadSpec.DrainFacts | src/scribe/daemon.py:213-261 | the frame loop keeps the invariant. A chunk it returns is non-empty, has audio, is a whole number of frames and respects the maximum. The accumulator is then empty and `chunks_with_audio` has risen by one |
| VadSpec.CollectFacts | src/scribe/daemon.py:197-266 | the queue loop keeps the invariant, and `chunks_with_audio` rises by one exactly when it returns a chunk |
| VadSpec.ExitDrainFacts | src/scribe/daemon.py:268-276 | on stop, a non-empty accumulator is finalized with reason exit through the same gate, and the chunk is returned exactly when it has audio; the VAD fields are left reset either way |
| VadSpec.ErrorSignalStops | src/scribe/daemon.py:201-204 | a `None` at the head of the queue ends the call at once with no chunk, leaving the state and the buffer untouched |
| VadSpec.Partial | src/scribe/daemon.py:213-216 | the leftover tail is shorter than a frame and than the input |
| VadSpec.AllFramesSilentSplit | src/scribe/daemon.py:213-219 | a silent stream split anywhere stays silent in front, and what is carried over plus the rest stays silent |
| VadSpec.SilentDrain | src/scribe/daemon.py:232-254 | outside speech, a buffer of silent frames changes nothing but the buffer, which keeps its partial tail |
| VadSpec.SilenceOnlyEmitsNothing | src/scribe/daemon.py:195-261 | silence-only input outside speech never produces a chunk: the whole queue is consumed and the VAD fields and counters stay as they were |
| VadSpec.DrainAppend | src/scribe/daemon.py:207-216 | when the first part completes no chunk, how the samples are split into queue blocks does not change what the frame loop does |
| VadSpec.LoudFramesAccumulate | src/scribe/daemon.py:221-230 | speech frames below the maximum are all appended; the accumulator and its length grow together and the silence count is zero |
| VadSpec.LastPauseFrame | src/scribe/daemon.py:234-251 | the silent frame that completes the pause finalizes the accumulator, including that frame, with reason silence |
| VadSpec.InnerPauseFrame | src/scribe/daemon.py:234-244 | a silent frame that does not complete the pause is appended and counted, and the invariant is kept |
| VadSpec.PauseFinalizes | src/scribe/daemon.py:232-251 | silent frames inside an utterance are appended until the pause is long enough, and the frame that completes it finalizes with reason silence |
| VadSpec.UtteranceThenPause | src/scribe/daemon.py:213-251 | speech frames followed by exactly enough silence give one chunk with reason silence, holding utterance plus pause, exactly when the whole passes the energy test; the buffer is consumed and the VAD fields reset |
| VadSpec.FixedRest | src/scribe/main.py:596-600 | the buffer kept after a chunk always shrinks. With an overlap below the chunk it is `buffer[chunk - overlap:]`; with an overlap above the chunk, the negative slice index keeps only the last `overlap - chunk` samples |
| VadSpec.FixedCollect | src/scribe/main.py:578-627 | every chunk fixed-chunk mode returns holds exactly `chunk_samples` samples |
| VadSpec.FixedCollectShape | src/scribe/main.py:581-590 | fixed-chunk collection takes a prefix of the queue, and the whole queue when it waits with less than a chunk buffered |
| VadSpec.FixedCollectCounts | src/scribe/main.py:602-627 | after every extraction `total_chunks_processed == chunks_with_audio + chunks_skipped_silence`, and `chunks_with_audio` rises exactly when a chunk is returned |
| VadSpec.FixedCollectOverlap | src/scribe/main.py:592-627 | a returned chunk passes the energy test. With an overlap below the chunk, the buffer left behind starts with the chunk's last `overlap_samples` samples; with an overlap above the chunk, it holds exactly `overlap - chunk` samples |
| VadSpec.FixedCollectPrefix | src/scribe/main.py:581-600 | when no chunk was skipped, the returned chunk begins with what the buffer held |
| VadSpec.ConsecutiveChunksOverlap | src/scribe/main.py:592-604 | with an overlap below the chunk, consecutive fixed chunks overlap: unless one was skipped in between, the next chunk begins with the last `overlap_samples` samples of the previous one |
| Streaming.StreamingRecorder.constructor | src/scribe/daemon.py:53-98 | every sample count is `int(sample_rate * seconds)`, the frame is `int(sample_rate * 0.1)`, the VAD fields and counters start cleared and the buffer and queue empty |
| Streaming.StreamingRecorder.PutAudio | src/scribe/daemon.py:168 | the capture thread's block is appended to the queue |
| Streaming.StreamingRecorder.SignalError | src/scribe/daemon.py:174 | the error signal is appended to the queue |
| Streaming.StreamingRecorder.FinalizeVadChunk | src/scribe/daemon.py:278-325 | the fields become what `Finalize` gives for the old state and the reason |
| Streaming.StreamingRecorder.ProcessFrame | src/scribe/daemon.py:219-261 | one frame pass keeps the invariant and updates the fields as `Step` does |
| Streaming.StreamingRecorder.UpdateFields | src/scribe/daemon.py:221-261 | the branch updates of one frame pass equal `Step` |
| Streaming.StreamingRecorder.RunFrames | src/scribe/daemon.py:213-261 | the frame loop keeps the invariant and leaves fields, buffer and result as `Drain` gives them |
| Streaming.StreamingRecorder.DrainOnExit | src/scribe/daemon.py:268-276 | the stop path leaves the fields and result as `ExitDrain` gives them |
| Streaming.StreamingRecorder.GetNextVadChunk | src/scribe/daemon.py:195-276 | with the stop event clear or set, fields, buffer, queue and result are those of `NextVadChunk`, and the invariant is kept |
| Streaming.StreamingRecorder.FillBuffer | src/scribe/main.py:581-590 | the fill loop ends full exactly when the buffer holds a chunk, and agrees with `FixedCollect` |
| Streaming.StreamingRecorder.ExtractChunk | src/scribe/main.py:592-627 | one extraction shrinks the buffer, keeps the counters consistent and agrees with `FixedCollect` |
| Streaming.StreamingRecorder.GetNextChunk | src/scribe/main.py:573-635 | counters, buffer, queue and result are those of `NextChunk` for the old state and the stop event |
| VadSpec.PyIndex | src/scribe/main.py:302 | Python slice index: an index in range is kept, and a negative one counts from the end |
| Windows.Flush | src/scribe/main.py:350-366 | a flush emits a non-empty accumulator as it is, without the energy gate, and always resets the four VAD fields |
| Windows.WinVadRest | src/scribe/main.py:319-321 | the frame loop leaves a tail of the buffer shorter than one frame |
| Windows.Listed | src/scribe/main.py:386-387 | a frame queues at most one chunk |
| Windows.WinVadUnfold | src/scribe/main.py:319-348 | processing the buffer is the first frame's pass followed by the rest, with the chunk queue extended in order |
| Windows.WinStepFacts | src/scribe/main.py:323-348 | a frame keeps the invariants. A flushed chunk is the accumulator with this frame, and the counters rise with it. A flush after a speech frame has reached the maximum. A flush after a silent frame has `silence_frames * frame_size >= vad_silence_samples` |
| Windows.WinMaxFlushes | src/scribe/main.py:326-337 | the converse of the maximum case: a loud frame that brings the accumulator to `vad_max_samples` flushes it with this frame, clears the VAD fields, and raises `chunks_with_audio`, the total and `vad_chunks_by_max_duration` by one each |
| Windows.WinSilenceFlushes | src/scribe/main.py:338-348 | the converse of the silence case: a silent frame during speech with `silence_frames * frame_size >= vad_silence_samples` flushes the accumulator with this frame, clears the VAD fields, and raises `chunks_with_audio`, the total and `vad_chunks_by_silence` by one each |
| Windows.WinVadFacts | src/scribe/main.py:317-348 | the frame loop keeps the invariants and queues one non-empty chunk per rise of `chunks_with_audio` |
| Windows.WinFixedCounts | src/scribe/main.py:294-315 | after every extraction the total is with-audio plus skipped. A buffer shorter than a chunk is left unchanged and nothing is queued; otherwise a chunk is queued exactly when the first `chunk_samples` samples pass the energy test, which is exactly when `chunks_with_audio` rises |
| Windows.WinFixedOverlap | src/scribe/main.py:296-304 | with `0 <= overlap < chunk <= len(buffer)` the chunk is the first `chunk_samples` samples and the buffer becomes `old[chunk - overlap:]`, shorter and starting with the chunk's last `overlap_samples` samples |
| Windows.OverlapEqualToChunkRepeats | src/scribe/main.py:301-302 | an overlap equal to the chunk size slices at 0: the buffer is never consumed and the same first chunk comes back |
| Windows.OverlapAboveChunkKeepsTail | src/scribe/main.py:301-302 | an overlap larger than the chunk size is a negative slice index, and only the last `overlap - chunk` samples are kept |
| Windows.WindowsPauseEndsNoLater | src/scribe/main.py:345-346 | the integer samples test ends a pause no later than the duration test of `StreamingRecorder` for the same rate and duration |
| Windows.PauseLengthsDiffer | src/scribe/main.py:345-346 | at 15 Hz with a 0.5 s pause the Windows recorder ends the pause after 7 silent frames and `StreamingRecorder` after 8 |
| Windows.MaxCheckAfterSilentFrameDiffers | src/scribe/main.py:335-348 | a silent frame that reaches the maximum finalizes in `StreamingRecorder` but not in the Windows recorder, whose maximum check follows speech frames only |
| Windows.FlushSkipsGate | src/scribe/main.py:352-360 | a flush emits a buffer that fails the energy test as a whole, which `StreamingRecorder` would skip |
| Windows.WindowsAudioRecorder.constructor | src/scribe/main.py:152-198 | the sample counts are `int(sample_rate * seconds)`, the state starts cleared and the queues empty |
| Windows.WindowsAudioRecorder.FlushVadBuffer | src/scribe/main.py:350-366 | the fields reset and a non-empty accumulator is appended to the chunk queue |
| Windows.WindowsAudioRecorder.ProcessFrame | src/scribe/main.py:320-348 | one frame pass keeps the invariants and updates fields and chunk queue as `WinStep` does |
| Windows.WindowsAudioRecorder.UpdateFields | src/scribe/main.py:323-348 | the branch updates of one frame pass equal `WinStep` |
| Windows.WindowsAudioRecorder.TakeFrame | src/scribe/main.py:319-348 | one frame taken off the buffer and processed advances `WinVad` by one frame |
| Windows.WindowsAudioRecorder.ProcessVadMode | src/scribe/main.py:317-348 | fields, buffer and chunk queue become what `WinVad` gives, and less than a frame remains |
| Windows.WindowsAudioRecorder.ProcessFixedChunks | src/scribe/main.py:294-315 | counters, buffer and chunk queue become what `WinFixed` gives |
| Windows.WindowsAudioRecorder.ProcessAudioBlock | src/scribe/main.py:282-288 | the block is appended and processed in the configured mode |
| Windows.WindowsAudioRecorder.GetNextChunk | src/scribe/main.py:389-394 | the oldest queued chunk is taken, or None when the queue is empty |
| Windows.WindowsAudioRecorder.GetNextVadChunk | src/scribe/main.py:396-398 | the same as `get_next_chunk` |
| Ipc.DispatchCases | src/scribe/ipc.py:178-191 | a falsy command gives "Missing command", an unhashable one raises out of dispatch, an unregistered one gives "Unknown command: <name>", and a registered one returns the handler's reply or "Handler error: ..." |
| Ipc.RegisterThenDispatch | src/scribe/ipc.py:58-60 | registering a handler changes the dispatch of the messages naming it and no other |
| Ipc.EmptyNameUnreachable | src/scribe/ipc.py:180-182 | a handler registered under the empty name is never reached, because the empty command is falsy |
| Ipc.ReplyHasStatus | src/scribe/ipc.py:146-166 | with handlers that always answer with a status, every reply the server sends has status success or error, including "Invalid JSON" |
| Ipc.ServeRun | src/scribe/ipc.py:140-166 | a connection never gets more replies than messages |
| Ipc.OneReplyPerMessage | src/scribe/ipc.py:140-166 | when every send succeeds there is exactly one reply per message, in order, and a decode failure does not close the connection |
| Ipc.RemoveFirst | src/scribe/ipc.py:175-176 | `list.remove` leaves a list without the client unchanged and adds nobody |
| Ipc.Survivors | src/scribe/ipc.py:197-207 | the surviving clients are clients of the list whose send did not fail |
| Ipc.SurvivorsKeep | src/scribe/ipc.py:197-199 | every client whose send succeeds stays connected |
| Ipc.SurvivorsDistinct | src/scribe/ipc.py:197-207 | the surviving clients are still distinct |
| Ipc.RemoveFirstDistinct | src/scribe/ipc.py:175-176 | removing a client from a distinct list removes it entirely |
| Ipc.RemoveFirstSkip | src/scribe/ipc.py:206-207 | removing a client that appears once removes it from that position and nowhere else |
| Ipc.BroadcastStep | src/scribe/ipc.py:197-207 | one client of the loop: a failing client leaves the list and the others stay, in order |
| Ipc.BroadcastEnd | src/scribe/ipc.py:197-207 | after the loop the list is exactly the survivors, distinct, and an empty list stays empty |
| Ipc.IpcServer.constructor | src/scribe/ipc.py:50-56 | a new server is stopped, with no clients and no handlers |
| Ipc.IpcServer.RegisterHandler | src/scribe/ipc.py:58-60 | the entry for the name is overwritten and the others are unchanged |
| Ipc.IpcServer.Start | src/scribe/ipc.py:62-83 | the server is running afterwards, and starting while running changes nothing |
| Ipc.IpcServer.Stop | src/scribe/ipc.py:85-114 | the server is stopped with no clients afterwards, and stopping while stopped changes nothing |
| Ipc.IpcServer.Accept | src/scribe/ipc.py:116-129 | while running, an accepted connection joins the end of the list |
| Ipc.IpcServer.ServeClient | src/scribe/ipc.py:137-176 | the client gets one reply per message until a send fails, and is removed from the list when the handler ends |
| Ipc.IpcServer.Broadcast | src/scribe/ipc.py:193-207 | the list afterwards is the prior list with the failing clients removed, in original order; broadcast never raises |
| Ipc.ConnectsIffFirstAcceptedAfterRefusals | src/scribe/ipc.py:223-237 | connecting succeeds exactly when some attempt is accepted and every attempt before it was refused |
| Ipc.Outgoing | src/scribe/ipc.py:254 | the outgoing message holds the keyword arguments and a command field equal to the argument |
| Ipc.CommandReplyFailures | src/scribe/ipc.py:256-272 | a closed, garbled or broken exchange gives status error, and a received reply is returned as it is |
| Ipc.IpcClient.constructor | src/scribe/ipc.py:213-216 | a new client has no socket and is not connected |
| Ipc.IpcClient.Connect | src/scribe/ipc.py:218-237 | true at once when already connected; otherwise `connected` is set exactly when the attempts connect |
| Ipc.IpcClient.Disconnect | src/scribe/ipc.py:239-247 | afterwards the client is not connected and has no socket |
| Ipc.IpcClient.SendCommand | src/scribe/ipc.py:249-272 | while not connected nothing is sent and the reply is "Not connected to daemon"; otherwise the outgoing message is sent and the reply is what came back |
| Ipc.IpcClient.ReceiveMessage | src/scribe/ipc.py:274-295 | None while not connected, otherwise what was received |
| Ipc.StreamRunUnread | src/scribe/ipc.py:355-374 | the messages the loop left unread are a tail of the input |
| Ipc.StreamRunFacts | src/scribe/ipc.py:355-374 | every transcription delivered is non-empty and at most one error is delivered. Callbacks run only when registered. The loop stops early only on an error or a recording-stopped message |
| Ipc.StreamEndsAt | src/scribe/ipc.py:367-374 | a message that ends the loop hides everything after it |
| Ipc.StreamStep | src/scribe/ipc.py:357-374 | one message's effect followed by the rest of the run equals the run from that message |
| Ipc.StreamingClient.constructor | src/scribe/ipc.py:305-310 | a new streaming client is not streaming and has no callbacks |
| Ipc.StreamingClient.StartStreaming | src/scribe/ipc.py:321-339 | a no-op while streaming; otherwise the callbacks are stored and start_recording is sent. Streaming begins exactly on a success reply, and otherwise `on_error` gets the failure message |
| Ipc.StreamingClient.StopStreaming | src/scribe/ipc.py:341-353 | a no-op while stopped; otherwise streaming ends and stop_recording is sent when connected |
| Ipc.StreamingClient.Deliver | src/scribe/ipc.py:358-374 | one message calls the callbacks and ends the loop as `Effect` says |
| Ipc.StreamingClient.StreamLoop | src/scribe/ipc.py:355-374 | the callbacks made and the messages left unread are those of `StreamRun`; nothing happens when not streaming |
| Daemon.DefaultConfig | src/scribe/daemon.py:377-386 | the default configuration names the "base" model and has no command key |
| Daemon.MergeOnStep | src/scribe/daemon.py:463-465 | merging one more key updates only that key, and the set of keys stays the same |
| Daemon.MergeFacts | src/scribe/daemon.py:463-465 | `configure` copies exactly the keys already in the configuration, never "command", and keeps the rest |
| Daemon.ReloadTestNeverFires | src/scribe/daemon.py:463-470 | the model test after the merge compares the stored model with itself, so for every value equal to itself `_load_model` is never reached from `configure` |
| Daemon.ConfigureModelChangeNotLoaded | src/scribe/daemon.py:459-475 | asking a fresh daemon for the "small" model records "small" while the test stays false and the "base" model stays loaded |
| Daemon.StripStartFacts | src/scribe/daemon.py:593 | stripping the front drops the leading whitespace and nothing else |
| Daemon.StripEndFacts | src/scribe/daemon.py:593 | stripping the end drops the trailing whitespace and nothing else |
| Daemon.StripBounds | src/scribe/daemon.py:593 | the stripped text is the slice of the original between the whitespace cut off at each end |
| Daemon.StripFacts | src/scribe/daemon.py:593 | the stripped text is a slice with no whitespace at either end, and it is empty exactly when the text is all whitespace |
| Daemon.StripIdempotent | src/scribe/daemon.py:593-596 | stripping twice is stripping once, so the broadcast text is already stripped |
| Daemon.StrippedTexts | src/scribe/daemon.py:592-596 | one stripped text per segment |
| Daemon.StrippedTextsAt | src/scribe/daemon.py:592-596 | text k is segment k stripped |
| Daemon.TextEvents | src/scribe/daemon.py:592-598 | never more events than texts |
| Daemon.SegmentEvents | src/scribe/daemon.py:592-598 | never more events than segments |
| Daemon.TextEventsFacts | src/scribe/daemon.py:592-598 | every event is the transcription event of a non-empty text |
| Daemon.TextEventsAllKept | src/scribe/daemon.py:592-598 | when every text is non-empty each one yields an event |
| Daemon.SegmentEventsFacts | src/scribe/daemon.py:592-598 | every event carries the non-empty stripped text of some segment and the transcription time |
| Daemon.SegmentEventsAllKept | src/scribe/daemon.py:592-598 | when every segment has text after stripping, each yields its event |
| Daemon.EventsAsClassified | src/scribe/ipc.py:362-374 | a streaming client sees a non-empty transcription event as a transcription and recording_stopped as the end, and ignores the worker's error event, which has no status key |
| Daemon.TextEventsStep | src/scribe/daemon.py:592-598 | one pass of the segment loop extends the broadcasts by that segment's event |
| Daemon.WorkerEventsStep | src/scribe/daemon.py:575-612 | one pass of the worker loop extends the broadcasts by that chunk's events |
| Daemon.SegmentEventsAreTranscripts | src/scribe/daemon.py:592-598 | every event the segment loop broadcasts reaches a streaming client as a transcription |
| Daemon.ScribeDaemon.constructor | src/scribe/daemon.py:371-397 | a new daemon has the default configuration, is idle and not running, and has no recorder, model or broadcasts |
| Daemon.ScribeDaemon.LoadModel | src/scribe/daemon.py:446-457 | the named model is the one loaded |
| Daemon.ScribeDaemon.Start | src/scribe/daemon.py:399-424 | the configured model is loaded and the daemon is running |
| Daemon.ScribeDaemon.SignalHandler | src/scribe/daemon.py:441-444 | the daemon stops running |
| Daemon.ScribeDaemon.Stop | src/scribe/daemon.py:426-439 | the daemon stops running and recording; an active recording is stopped with a recording_stopped broadcast |
| Daemon.ScribeDaemon.HandleConfigure | src/scribe/daemon.py:459-475 | as written: the configuration becomes the merge, the reply is success, and the loaded model never changes |
| Daemon.ScribeDaemon.HandleConfigureIntended | src/scribe/daemon.py:459-475 | as intended: the configuration becomes the merge and a changed model name is loaded, so a loaded model that matched the configuration still matches it |
| Daemon.ScribeDaemon.MergeMessage | src/scribe/daemon.py:463-465 | the merge loop gives `Merge` of the old configuration and the message |
| Daemon.ScribeDaemon.HandleStartRecording | src/scribe/daemon.py:477-487 | "Already recording" with no state change while recording; otherwise success and recording with a recorder made from the configuration, or the raised error and not recording |
| Daemon.ScribeDaemon.StartRecording | src/scribe/daemon.py:515-542 | the recorder is made from the configuration. Recording starts only when both construction and streaming succeed. A streaming failure leaves the recorder set |
| Daemon.ScribeDaemon.HandleStopRecording | src/scribe/daemon.py:489-499 | "Not recording" while idle; otherwise success, not recording, and a recording_stopped broadcast |
| Daemon.ScribeDaemon.StopRecording | src/scribe/daemon.py:544-569 | recording ends and the recorder is released, with one recording_stopped broadcast; a no-op while idle |
| Daemon.ScribeDaemon.HandleGetStatus | src/scribe/daemon.py:501-508 | the status reply holds success, the recording flag, the model name and the whole configuration, and nothing else |
| Daemon.ScribeDaemon.HandleShutdown | src/scribe/daemon.py:510-513 | the daemon stops running and replies "Shutting down" |
| Daemon.ScribeDaemon.PublishSegments | src/scribe/daemon.py:592-598 | the broadcasts grow by `SegmentEvents` of the segments |
| Daemon.ScribeDaemon.WorkerTurn | src/scribe/daemon.py:576-612 | a missing chunk adds nothing; a chunk adds its segments' events, one transcription error event when `transcribe` raises, or the events of the segments read before a failure followed by one error event |
| Daemon.ScribeDaemon.TranscriptionWorker | src/scribe/daemon.py:571-614 | while recording the broadcasts grow by the events of every turn in order; otherwise nothing is broadcast |
| Daemon.TurnEventsFacts | src/scribe/daemon.py:576-612 | a pass without a chunk broadcasts nothing; every event but a failure's closing error reaches a streaming client as a transcript; a failure, before or during the segment loop, ends the pass with exactly one error event, which the client ignores |

## Left out

- Energy.Loud: the float arithmetic of `_has_audio` (float32 squares, `np.mean`, `np.sqrt`, division by 32768) is replaced by exact integer cross-multiplication, and rounding is not modelled. Samples are integers; a float sample is an integer multiple of a chosen quantum.
- VadSpec.SilenceElapsed: the float division `frames * frame_size / sample_rate` is compared exactly; float rounding at the boundary is not modelled.
- VadSpec.Samples: `int(sample_rate * seconds)` is computed on exact rationals; float error in the product is not modelled. The frame size is `sample_rate / 10`.
- Streaming.StreamingRecorder.constructor: requires `sample_rate >= 10`. With a frame size of 0 the source's frame loop never ends. Fixed-chunk mode never uses the frame size, so the requirement only matters in VAD mode.
- Windows.WindowsAudioRecorder.constructor: requires `sample_rate >= 10`. With a frame size of 0, `_process_vad_mode` takes an empty frame on every pass and never ends. Fixed-chunk mode never uses the frame size, so the requirement only matters in VAD mode.
- Streaming.StreamingRecorder.GetNextChunk: requires `FixedSettings`: a positive chunk size, and an overlap either below the chunk or between one and two chunks. With an overlap of exactly one chunk the slice is `buffer[0:]`: a loud chunk is returned, the same one on every later call, while a silent one is counted as skipped again and again until the stop event. With an overlap of two chunks or more the buffer can stop shrinking in the same way. A chunk size of 0 or less makes every buffer, even an empty one, count as a full chunk, so the loop can spin on an empty queue. These loops are outside the model; `Windows.OverlapEqualToChunkRepeats` shows the repetition for the Windows recorder, which extracts once per block.
- Audio capture is not modelled: the ffmpeg subprocess, sounddevice streams, `_recording_worker`, `_audio_callback`, `start_streaming`/`stop_streaming` of the recorders, and WAV header skipping. The audio queue is an input sequence of blocks.
- WAV files are not modelled: `_save_chunk_to_file`, `_write_chunk_to_temp_file`, `os.unlink`, and the int16 scaling by 32767. A chunk is its sample sequence.
- Concurrency is not modelled: threads, queue timeouts, stop events, join timeouts, the daemon's sleep loop and signal registration. The stop event is a boolean parameter, and a call that would wait returns `Blocked`.
- The exception handlers of the recorders' loops, and `processing_errors`, are not modelled: nothing in the modelled code raises.
- Whisper is not modelled: model loading, `transcribe`, a load failure and `setup_cudnn_path`. A chunk's transcription is an input: all its segment texts and a time, an error raised by `transcribe`, or the segment texts read before an error raised while the lazily decoded segments are iterated. All segments share one `transcription_time`, taken before the loop.
- Daemon.ScribeDaemon.LoadModel: a model that fails to load is not modelled; the name is recorded as loaded.
- Sockets are not modelled: creation, bind, chmod, listen, accept, `recv(4096)` framing, and `json.dumps`/`json.loads`. Messages arrive decoded; send results, received data and connection attempts are inputs.
- Daemon.ScribeDaemon.Start and Daemon.ScribeDaemon.Stop: the IPC server's start and stop, and the main loop, are left to `Ipc.IpcServer`. The daemon's handlers are methods of the class and are not plugged into the server's registry, which holds pure handler functions.
- Values.Display: Python's `str()` is written out for strings, integers, booleans and None only. Floats, lists and dictionaries get a placeholder text.
- Values.Value: Python's cross-kind equality (`1 == 1.0 == True`) is not modelled; values of different kinds are different.
- Daemon.ReloadTestNeverFires: JSON's `NaN` and `Infinity`, which `json.loads` accepts, are not values of the model. For a `NaN` model the reload test of `configure` is `nan != nan`, which is true, so `_load_model` runs and, if it raises, `configure` replies with an error; `Daemon.ScribeDaemon.HandleConfigure` does not cover that case.
- Daemon.ScribeDaemon.HandleConfigure: its promises of a success reply and an unchanged loaded model hold for every model value of the model, not for a JSON `NaN` model (see the line above).
- Ipc.IpcClient.SendCommand: a server reply is assumed to be a JSON object; a list or a number would make `.get` raise in the streaming client.
- Ipc.IpcClient.Connect: the wall-clock timeout is the length of the attempt sequence.
- `is_daemon_running`, `ScribeIPCProtocol` (socket path and cleanup), `daemon_manager.py`, `client.py`, the GUI files, the profiling and smoke-test scripts, and the batch recorder are not part of this model.
- Debug logging and `print_debug_stats` are not modelled. The counters themselves are.
- The reload branch of `configure` is commented as reloading a changed model and calls `_load_model` with the message's model (src/scribe/daemon.py:467-469), but it never runs for a model value equal to itself. The model follows the code (see Findings).

## Findings

| source | as written | input that shows it | evidently intended | confidence | as-written member | corrected member |
|---|---|---|---|---|---|---|
| src/scribe/daemon.py:463-470 | the merge copies `message["model"]` into `config["model"]` before the reload test `message["model"] != config["model"]`, so the test is false for every value equal to itself and the new model is never loaded | `configure` with `{"command": "configure", "model": "small"}` on a fresh daemon records "small" and keeps "base" loaded | load the new model when the requested name differs from the configured one, so the loaded model follows the configuration | not executed | Daemon.ScribeDaemon.HandleConfigure | Daemon.ScribeDaemon.HandleConfigureIntended |
