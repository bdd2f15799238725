/** `StreamingRecorder`: the capture-side recorder whose segmentation state
    lives in fields that `get_next_vad_chunk`, `get_next_chunk` and
    `_finalize_vad_chunk` update in place.  The capture thread is replaced by
    `PutAudio` and `SignalError`, which append to the audio queue; the stop
    event is the `stop` argument.  Each method is proved to compute the
    corresponding function of VadSpec. */
module Streaming {
  import opened Values
  import opened Energy
  import opened VadSpec

  class StreamingRecorder {
    const settings: Settings
    const vadMode: bool

    /** `buffer`: samples taken from the queue and not yet framed or chunked. */
    var buffer: seq<int>
    /** `audio_queue`: blocks the capture thread has put and nobody has taken. */
    var audioQueue: seq<QueueItem>
    /** The four VAD fields. */
    var speechBuffer: seq<int>
    var currentChunkSamples: int
    var consecutiveSilenceFrames: int
    var inSpeech: bool
    /** The chunk counters of `debug_stats`. */
    var stats: Stats

    /** The VAD fields and counters as one value. */
    function Vad(): VadState
      reads this`speechBuffer, this`currentChunkSamples, this`consecutiveSilenceFrames, this`inSpeech, this`stats
    {
      VadState(speechBuffer, currentChunkSamples, consecutiveSilenceFrames, inSpeech, stats)
    }

    ghost predicate Valid()
      reads this`speechBuffer, this`currentChunkSamples, this`consecutiveSilenceFrames, this`inSpeech, this`stats
    {
      ValidSettings(settings) && Inv(settings, Vad())
    }

    /** `__init__`: every sample count is `int(sample_rate * seconds)`, and a
        VAD frame is `int(sample_rate * 0.1)`, which is `sample_rate / 10`. */
    constructor (sampleRate: nat, chunkDuration: Ratio, overlapDuration: Ratio, silenceThreshold: Ratio,
                 vadMode: bool, vadSilenceDuration: Ratio, vadMaxDuration: Ratio)
      requires sampleRate >= 10
      requires chunkDuration.Valid() && overlapDuration.Valid() && silenceThreshold.Valid()
      requires vadSilenceDuration.Valid() && vadMaxDuration.Valid()
      ensures settings == Settings(sampleRate, sampleRate / 10,
                                   Samples(sampleRate, chunkDuration), Samples(sampleRate, overlapDuration),
                                   Samples(sampleRate, vadMaxDuration), vadSilenceDuration, silenceThreshold)
      ensures this.vadMode == vadMode
      ensures Valid() && Vad() == Initial && buffer == [] && audioQueue == []
    {
      settings := Settings(sampleRate, sampleRate / 10,
                           Samples(sampleRate, chunkDuration), Samples(sampleRate, overlapDuration),
                           Samples(sampleRate, vadMaxDuration), vadSilenceDuration, silenceThreshold);
      this.vadMode := vadMode;
      buffer := [];
      audioQueue := [];
      speechBuffer := [];
      currentChunkSamples := 0;
      consecutiveSilenceFrames := 0;
      inSpeech := false;
      stats := NoStats;
    }

    /** The capture thread's `audio_queue.put(audio_data)`. */
    method PutAudio(block: seq<int>)
      modifies this`audioQueue
      ensures audioQueue == old(audioQueue) + [Block(block)]
    {
      audioQueue := audioQueue + [Block(block)];
    }

    /** The capture thread's `audio_queue.put(None)` after a failure. */
    method SignalError()
      modifies this`audioQueue
      ensures audioQueue == old(audioQueue) + [ErrorSignal]
    {
      audioQueue := audioQueue + [ErrorSignal];
    }

    /** `_finalize_vad_chunk(reason)`.  It may be called in the middle of a
        frame, when the accumulator has just grown past what the invariant
        allows; a non-empty accumulator is then reset. */
    method FinalizeVadChunk(reason: Reason) returns (chunk: Option<Chunk>)
      requires ValidSettings(settings) && StatsInv(stats)
      requires speechBuffer == [] ==> Inv(settings, Vad())
      modifies this`speechBuffer, this`currentChunkSamples, this`consecutiveSilenceFrames, this`inSpeech, this`stats
      ensures (Vad(), chunk) == Finalize(settings, old(Vad()), reason)
    {
      if |speechBuffer| == 0 {
        return None;
      }
      if HasAudio(settings, speechBuffer) {
        stats := stats.(total := stats.total + 1, withAudio := stats.withAudio + 1);
        if reason == Silence {
          stats := stats.(bySilence := stats.bySilence + 1);
        } else if reason == MaxDuration {
          stats := stats.(byMax := stats.byMax + 1);
        }
        chunk := Some(Chunk(speechBuffer, reason));
      } else {
        stats := stats.(total := stats.total + 1, skipped := stats.skipped + 1);
        chunk := None;
      }
      speechBuffer := [];
      currentChunkSamples := 0;
      consecutiveSilenceFrames := 0;
      inSpeech := false;
    }

    /** One pass of the frame loop of `get_next_vad_chunk`, after `frame` has
        been taken off the buffer. */
    method ProcessFrame(frame: seq<int>) returns (out: Option<Chunk>)
      requires Valid() && |frame| == settings.frameSize
      modifies this`speechBuffer, this`currentChunkSamples, this`consecutiveSilenceFrames, this`inSpeech, this`stats
      ensures Valid()
      ensures (Vad(), out) == Step(settings, old(Vad()), frame)
    {
      StepFacts(settings, Vad(), frame);
      out := UpdateFields(frame);
    }

    /** The field updates of one frame pass. */
    method UpdateFields(frame: seq<int>) returns (out: Option<Chunk>)
      requires Valid() && |frame| == settings.frameSize
      modifies this`speechBuffer, this`currentChunkSamples, this`consecutiveSilenceFrames, this`inSpeech, this`stats
      ensures (Vad(), out) == Step(settings, old(Vad()), frame)
    {
      if HasAudio(settings, frame) {
        inSpeech := true;
        speechBuffer := speechBuffer + frame;
        currentChunkSamples := currentChunkSamples + |frame|;
        consecutiveSilenceFrames := 0;
      } else if inSpeech {
        consecutiveSilenceFrames := consecutiveSilenceFrames + 1;
        speechBuffer := speechBuffer + frame;
        currentChunkSamples := currentChunkSamples + |frame|;
        if SilenceElapsed(settings, consecutiveSilenceFrames) {
          FinalizeFacts(settings, Vad(), Silence);
          out := FinalizeVadChunk(Silence);
          if out.Some? {
            return;
          }
        }
      }
      if currentChunkSamples >= settings.maxSamples {
        out := FinalizeVadChunk(MaxDuration);
      } else {
        out := None;
      }
    }

    /** The frame loop of `get_next_vad_chunk`: take whole frames off the
        front of the buffer until one completes a chunk. */
    method RunFrames() returns (out: Option<Chunk>)
      requires Valid()
      modifies this`buffer, this`speechBuffer, this`currentChunkSamples, this`consecutiveSilenceFrames,
               this`inSpeech, this`stats
      ensures Valid()
      ensures (Vad(), buffer, out) == Drain(settings, old(Vad()), old(buffer))
    {
      ghost var goal := Drain(settings, Vad(), buffer);
      while |buffer| >= settings.frameSize
        invariant Valid()
        invariant Drain(settings, Vad(), buffer) == goal
        decreases |buffer|
      {
        var frame := buffer[..settings.frameSize];
        buffer := buffer[settings.frameSize..];
        out := ProcessFrame(frame);
        if out.Some? {
          return;
        }
      }
      out := None;
    }

    /** The end of `get_next_vad_chunk` once the stop event is seen: a
        non-empty accumulator is finalized with reason "exit". */
    method DrainOnExit() returns (r: Fetch<Chunk>)
      requires Valid()
      modifies this`speechBuffer, this`currentChunkSamples, this`consecutiveSilenceFrames, this`inSpeech, this`stats
      ensures Valid()
      ensures (Vad(), r) == ExitDrain(settings, old(Vad()))
    {
      ExitDrainFacts(settings, Vad());
      if |speechBuffer| > 0 {
        var chunk := FinalizeVadChunk(Exit);
        if chunk.Some? {
          return Got(chunk.value);
        }
      }
      return Stopped;
    }

    /** `get_next_vad_chunk`.  With the stop event clear it takes queue items
        and frames them until a chunk is complete, an error signal arrives or
        the queue is empty; with it set it drains the accumulator. */
    method GetNextVadChunk(stop: bool) returns (r: Fetch<Chunk>)
      requires Valid()
      modifies this
      ensures Valid()
      ensures (Vad(), buffer, audioQueue, r) == NextVadChunk(settings, old(Vad()), old(buffer), old(audioQueue), stop)
    {
      ghost var goal := Collect(settings, Vad(), buffer, audioQueue);
      while !stop
        invariant Valid()
        invariant Collect(settings, Vad(), buffer, audioQueue) == goal
        invariant stop ==> Vad() == old(Vad()) && buffer == old(buffer) && audioQueue == old(audioQueue)
        decreases |audioQueue|
      {
        if audioQueue == [] {
          return Blocked;
        }
        var item := audioQueue[0];
        audioQueue := audioQueue[1..];
        if item.ErrorSignal? {
          return Failed;
        }
        buffer := buffer + item.samples;
        var out := RunFrames();
        if out.Some? {
          return Got(out.value);
        }
      }
      r := DrainOnExit();
    }

    /** The inner loop of `get_next_chunk`: take queue items until the buffer
        holds a chunk.  When it does not get there, `r` is what
        `get_next_chunk` returns. */
    method FillBuffer() returns (full: bool, r: Fetch<seq<int>>)
      requires FixedSettings(settings)
      modifies this`buffer, this`audioQueue
      ensures full <==> |buffer| >= settings.chunkSamples
      ensures FixedCollect(settings, stats, old(buffer), old(audioQueue)) ==
        if full then FixedCollect(settings, stats, buffer, audioQueue) else (stats, buffer, audioQueue, r)
      ensures |audioQueue| <= |old(audioQueue)|
      ensures |audioQueue| < |old(audioQueue)| || buffer == old(buffer)
    {
      while |buffer| < settings.chunkSamples
        invariant FixedCollect(settings, stats, buffer, audioQueue) ==
                  FixedCollect(settings, stats, old(buffer), old(audioQueue))
        invariant |audioQueue| <= |old(audioQueue)|
        invariant |audioQueue| < |old(audioQueue)| || buffer == old(buffer)
        decreases |audioQueue|
      {
        if audioQueue == [] {
          return false, Blocked;
        }
        var item := audioQueue[0];
        audioQueue := audioQueue[1..];
        if item.ErrorSignal? {
          return false, Failed;
        }
        buffer := buffer + item.samples;
      }
      return true, Blocked;
    }

    /** The extraction step of `get_next_chunk`: cut the first
        `chunk_samples` off the buffer, keep the overlap, count the chunk and
        gate it on the energy test. */
    method ExtractChunk() returns (chunk: Option<seq<int>>)
      requires Valid() && FixedSettings(settings) && |buffer| >= settings.chunkSamples
      modifies this`buffer, this`stats
      ensures Valid() && |buffer| < |old(buffer)|
      ensures FixedCollect(settings, old(stats), old(buffer), audioQueue) ==
        if chunk.Some? then (stats, buffer, audioQueue, Got(chunk.value))
        else FixedCollect(settings, stats, buffer, audioQueue)
    {
      var samples := buffer[..settings.chunkSamples];
      if settings.overlapSamples > 0 {
        buffer := SliceFrom(buffer, settings.chunkSamples - settings.overlapSamples);
      } else {
        buffer := SliceFrom(buffer, settings.chunkSamples);
      }
      stats := stats.(total := stats.total + 1);
      if HasAudio(settings, samples) {
        stats := stats.(withAudio := stats.withAudio + 1);
        chunk := Some(samples);
      } else {
        stats := stats.(skipped := stats.skipped + 1);
        chunk := None;
      }
    }

    /** `get_next_chunk` (fixed-chunk mode).  With the stop event clear it
        fills the buffer from the queue, extracts `chunk_samples`, keeps the
        overlap and returns the chunk if it has audio, going on after a
        silent one; with it set it returns at once. */
    method GetNextChunk(stop: bool) returns (r: Fetch<seq<int>>)
      requires Valid() && FixedSettings(settings)
      modifies this`buffer, this`audioQueue, this`stats
      ensures Valid()
      ensures (stats, buffer, audioQueue, r) == NextChunk(settings, old(stats), old(buffer), old(audioQueue), stop)
    {
      ghost var goal := FixedCollect(settings, stats, buffer, audioQueue);
      while !stop
        invariant Valid()
        invariant FixedCollect(settings, stats, buffer, audioQueue) == goal
        invariant stop ==> stats == old(stats) && buffer == old(buffer) && audioQueue == old(audioQueue)
        decreases |audioQueue|, |buffer|
      {
        var full;
        full, r := FillBuffer();
        if !full {
          return;
        }
        var chunk := ExtractChunk();
        if chunk.Some? {
          return Got(chunk.value);
        }
      }
      return Stopped;
    }
  }
}
