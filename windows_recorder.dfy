/** `WindowsAudioRecorder`: the sounddevice-based recorder.  A processing
    thread appends each captured block to `buffer` and segments it at once,
    putting finished chunks on `chunk_queue`, from which `get_next_chunk`
    takes them.  Its VAD differs from `StreamingRecorder` in three ways: the
    silence test compares whole sample counts, the maximum-length check runs
    only after speech frames, and a flushed accumulator is not gated by the
    energy test again.  Samples are floats in [-1, 1]; the model writes a
    sample `x` as the integer `x * unit`. */
module Windows {
  import opened Values
  import opened Energy
  import opened VadSpec

  /** The settings fixed at construction, in samples. */
  datatype WinSettings = WinSettings(
    frameSize: nat,
    chunkSamples: int,
    overlapSamples: int,
    maxSamples: int,
    silenceSamples: int,
    threshold: Ratio,
    unit: nat)

  predicate ValidWin(c: WinSettings) {
    c.unit > 0 && c.threshold.Valid()
  }

  /** `_has_audio`: raw RMS of the float samples above the threshold. */
  predicate WinHasAudio(c: WinSettings, s: seq<int>)
    requires ValidWin(c)
  {
    Loud(s, c.unit, c.threshold)
  }

  /** `_flush_vad_buffer`: a non-empty accumulator is emitted as it is, with
      no energy test, and the VAD fields are reset in every case. */
  function Flush(v: VadState): (r: (VadState, Option<seq<int>>))
    ensures r.0 == Cleared(r.0.stats)
    ensures r.1.Some? <==> v.speech != []
    ensures r.1.Some? ==> r.1.value == v.speech
  {
    if |v.speech| > 0 then
      (Cleared(v.stats.(withAudio := v.stats.withAudio + 1, total := v.stats.total + 1)), Some(v.speech))
    else
      (Cleared(v.stats), None)
  }

  function CountBySilence(v: VadState): VadState {
    v.(stats := v.stats.(bySilence := v.stats.bySilence + 1))
  }

  function CountByMax(v: VadState): VadState {
    v.(stats := v.stats.(byMax := v.stats.byMax + 1))
  }

  /** One pass of the frame loop of `_process_vad_mode`. */
  function WinStep(c: WinSettings, v: VadState, frame: seq<int>): (VadState, Option<seq<int>>)
    requires ValidWin(c)
  {
    if WinHasAudio(c, frame) then
      var v1 := VadState(v.speech + frame, v.count + |frame|, 0, true, v.stats);
      if v1.count >= c.maxSamples then
        var (w, out) := Flush(v1);
        (CountByMax(w), out)
      else (v1, None)
    else if v.inSpeech then
      var v1 := VadState(v.speech + frame, v.count + |frame|, v.silentFrames + 1, true, v.stats);
      if v1.silentFrames * c.frameSize >= c.silenceSamples then
        var (w, out) := Flush(v1);
        (CountBySilence(w), out)
      else (v1, None)
    else (v, None)
  }

  /** `_process_vad_mode`: every whole frame of the buffer is processed, and
      each chunk flushed on the way is queued. */
  function WinVad(c: WinSettings, v: VadState, buf: seq<int>): (VadState, seq<int>, seq<seq<int>>)
    requires ValidWin(c) && c.frameSize > 0
    decreases |buf|
  {
    if |buf| < c.frameSize then (v, buf, [])
    else
      var s := WinStep(c, v, buf[..c.frameSize]);
      var r := WinVad(c, s.0, buf[c.frameSize..]);
      (r.0, r.1, Listed(s.1) + r.2)
  }

  lemma TailOfTail(buf: seq<int>, n: nat, k: nat)
    requires n <= |buf| && k <= |buf| - n
    ensures buf[n..][|buf| - n - k..] == buf[|buf| - k..]
  {}

  /** What the frame loop leaves in the buffer is a tail of it shorter
      than one frame. */
  lemma {:induction false} WinVadRest(c: WinSettings, v: VadState, buf: seq<int>)
    requires ValidWin(c) && c.frameSize > 0
    ensures var rest := WinVad(c, v, buf).1;
      |rest| < c.frameSize && |rest| <= |buf| && rest == buf[|buf| - |rest|..]
    decreases |buf|
  {
    if |buf| >= c.frameSize {
      var w := WinStep(c, v, buf[..c.frameSize]).0;
      WinVadRest(c, w, buf[c.frameSize..]);
      TailOfTail(buf, c.frameSize, |WinVad(c, w, buf[c.frameSize..]).1|);
    }
  }

  /** The chunk list a frame adds to `chunk_queue`. */
  function Listed(out: Option<seq<int>>): (l: seq<seq<int>>)
    ensures |l| <= 1
  {
    if out.Some? then [out.value] else []
  }

  /** `WinVad` on a buffer that starts with a whole frame. */
  lemma WinVadUnfold(c: WinSettings, v: VadState, frame: seq<int>, buf: seq<int>)
    requires ValidWin(c) && c.frameSize > 0 && |frame| == c.frameSize
    ensures var s := WinStep(c, v, frame);
      var r := WinVad(c, s.0, buf);
      WinVad(c, v, frame + buf) == (r.0, r.1, Listed(s.1) + r.2)
  {
    assert (frame + buf)[..c.frameSize] == frame;
    assert (frame + buf)[c.frameSize..] == buf;
  }

  lemma ListedAssoc(q: seq<seq<int>>, out: Option<seq<int>>, more: seq<seq<int>>)
    ensures (q + Listed(out)) + more == q + (Listed(out) + more)
  {}

  /** `_process_fixed_chunks`: at most one chunk per captured block. */
  function WinFixed(c: WinSettings, st: Stats, buf: seq<int>): (Stats, seq<int>, Option<seq<int>>)
    requires ValidWin(c)
  {
    if |buf| >= c.chunkSamples then
      var chunk := SliceTo(buf, c.chunkSamples);
      var rest := if c.overlapSamples > 0 then SliceFrom(buf, c.chunkSamples - c.overlapSamples)
                  else SliceFrom(buf, c.chunkSamples);
      if WinHasAudio(c, chunk) then
        (st.(withAudio := st.withAudio + 1, total := st.total + 1), rest, Some(chunk))
      else
        (st.(skipped := st.skipped + 1, total := st.total + 1), rest, None)
    else (st, buf, None)
  }

  /** The VAD fields between two frames. */
  ghost predicate WinInv(c: WinSettings, v: VadState) {
    && v.count == |v.speech|
    && (v.inSpeech <==> v.speech != [])
    && v.silentFrames >= 0
    && (!v.inSpeech ==> v.silentFrames == 0)
    && (v.silentFrames > 0 ==> v.silentFrames * c.frameSize < c.silenceSamples)
    && (v.inSpeech && v.silentFrames == 0 ==> |v.speech| < c.maxSamples)
  }

  /** The counters: every chunk is counted once; in VAD mode every chunk is
      emitted and has a reason, in fixed mode none has. */
  predicate WinStatsInv(vadMode: bool, st: Stats) {
    && st.total == st.withAudio + st.skipped
    && (vadMode ==> st.skipped == 0 && st.bySilence + st.byMax == st.withAudio)
    && (!vadMode ==> st.bySilence == 0 && st.byMax == 0)
  }

  /** A frame keeps the invariants; a chunk it flushes is the accumulator
      with this frame, and the counters rise with it. */
  lemma WinStepFacts(c: WinSettings, v: VadState, frame: seq<int>)
    requires ValidWin(c) && WinInv(c, v) && WinStatsInv(true, v.stats) && |frame| == c.frameSize
    ensures var (w, out) := WinStep(c, v, frame);
      && WinInv(c, w) && WinStatsInv(true, w.stats)
      && (out.Some? ==> out.value == v.speech + frame && w.speech == []
                        && w.stats.withAudio == v.stats.withAudio + 1)
      && (out.None? ==> w.stats == v.stats)
      && (out.Some? && WinHasAudio(c, frame) ==> |out.value| >= c.maxSamples)
      && (out.Some? && !WinHasAudio(c, frame) ==> (v.silentFrames + 1) * c.frameSize >= c.silenceSamples)
  {
    if !WinHasAudio(c, frame) && v.inSpeech {
      assert (v.silentFrames + 1) * c.frameSize == v.silentFrames * c.frameSize + c.frameSize;
    }
  }

  /** The converse of the maximum-length case: a loud frame that brings the
      accumulator to `vad_max_samples` flushes it, frame included, resets the
      VAD fields and counts one chunk ended by the maximum duration. */
  lemma WinMaxFlushes(c: WinSettings, v: VadState, frame: seq<int>)
    requires ValidWin(c) && c.frameSize > 0 && WinInv(c, v) && |frame| == c.frameSize
    requires WinHasAudio(c, frame) && |v.speech| + |frame| >= c.maxSamples
    ensures var (w, out) := WinStep(c, v, frame);
      && out == Some(v.speech + frame) && w == Cleared(w.stats)
      && w.stats == v.stats.(withAudio := v.stats.withAudio + 1, total := v.stats.total + 1,
                             byMax := v.stats.byMax + 1)
  {
    assert |v.speech + frame| > 0;
  }

  /** The converse of the silence case: a silent frame during speech that
      brings the silent run to `vad_silence_samples` flushes the accumulator,
      frame included, resets the VAD fields and counts one chunk ended by
      silence. */
  lemma WinSilenceFlushes(c: WinSettings, v: VadState, frame: seq<int>)
    requires ValidWin(c) && WinInv(c, v) && |frame| == c.frameSize
    requires !WinHasAudio(c, frame) && v.inSpeech
    requires (v.silentFrames + 1) * c.frameSize >= c.silenceSamples
    ensures var (w, out) := WinStep(c, v, frame);
      && out == Some(v.speech + frame) && w == Cleared(w.stats)
      && w.stats == v.stats.(withAudio := v.stats.withAudio + 1, total := v.stats.total + 1,
                             bySilence := v.stats.bySilence + 1)
  {
    assert (v.silentFrames + 1) * c.frameSize == v.silentFrames * c.frameSize + c.frameSize;
    assert |v.speech + frame| > 0;
  }

  /** The frame loop keeps the invariants, and queues exactly as many chunks
      as `chunks_with_audio` rises; none of them is empty. */
  lemma {:induction false} WinVadFacts(c: WinSettings, v: VadState, buf: seq<int>)
    requires ValidWin(c) && c.frameSize > 0 && WinInv(c, v) && WinStatsInv(true, v.stats)
    ensures var (w, rest, emitted) := WinVad(c, v, buf);
      && WinInv(c, w) && WinStatsInv(true, w.stats)
      && w.stats.withAudio == v.stats.withAudio + |emitted|
      && forall i :: 0 <= i < |emitted| ==> emitted[i] != []
    decreases |buf|
  {
    if |buf| >= c.frameSize {
      var frame := buf[..c.frameSize];
      WinStepFacts(c, v, frame);
      var (w, out) := WinStep(c, v, frame);
      WinVadFacts(c, w, buf[c.frameSize..]);
    }
  }

  /** The fixed-mode counters agree after every extraction; a block leaves
      less than a chunk untouched, and otherwise a chunk is queued exactly
      when the first `chunk_samples` samples pass the energy test, which is
      exactly when `chunks_with_audio` rises. */
  lemma WinFixedCounts(c: WinSettings, st: Stats, buf: seq<int>)
    requires ValidWin(c) && WinStatsInv(false, st)
    ensures var (st', rest, out) := WinFixed(c, st, buf);
      && WinStatsInv(false, st')
      && st'.withAudio == st.withAudio + (if out.Some? then 1 else 0)
      && (out.Some? ==> WinHasAudio(c, out.value))
      && (|buf| < c.chunkSamples ==> out.None? && st' == st && rest == buf)
      && (|buf| >= c.chunkSamples ==> (out.Some? <==> WinHasAudio(c, SliceTo(buf, c.chunkSamples))))
  {}

  /** With a sensible configuration (`0 <= overlap < chunk <= len(buffer)`)
      the chunk is the first `chunk_samples` samples and the buffer becomes
      `old[chunk - overlap:]`: it shrinks, and starts with the chunk's last
      `overlap_samples` samples. */
  lemma WinFixedOverlap(c: WinSettings, st: Stats, buf: seq<int>)
    requires ValidWin(c) && 0 <= c.overlapSamples < c.chunkSamples <= |buf|
    ensures var (st', rest, out) := WinFixed(c, st, buf);
      && rest == buf[c.chunkSamples - c.overlapSamples..]
      && |rest| < |buf|
      && (out.Some? ==> out.value == buf[..c.chunkSamples]
                        && rest[..c.overlapSamples] == out.value[c.chunkSamples - c.overlapSamples..])
  {
    var d := c.chunkSamples - c.overlapSamples;
    assert buf[d..][..c.overlapSamples] == buf[d..c.chunkSamples];
  }

  /** As written, an overlap equal to the chunk size slices the buffer at
      index 0: it is never consumed, and every later block yields the same
      first chunk again. */
  lemma OverlapEqualToChunkRepeats(c: WinSettings, st: Stats, buf: seq<int>, block: seq<int>)
    requires ValidWin(c) && 0 < c.chunkSamples == c.overlapSamples <= |buf|
    ensures WinFixed(c, st, buf).1 == buf
    ensures SliceTo(buf + block, c.chunkSamples) == SliceTo(buf, c.chunkSamples)
  {
    assert (buf + block)[..c.chunkSamples] == buf[..c.chunkSamples];
  }

  /** An overlap larger than the chunk size is a negative slice index: the
      buffer keeps only its last `overlap - chunk` samples. */
  lemma OverlapAboveChunkKeepsTail(c: WinSettings, st: Stats, buf: seq<int>)
    requires ValidWin(c) && 0 < c.chunkSamples < c.overlapSamples
    requires c.chunkSamples <= |buf| && c.overlapSamples - c.chunkSamples <= |buf|
    ensures WinFixed(c, st, buf).1 == buf[|buf| - (c.overlapSamples - c.chunkSamples)..]
  {}

  // ---------------------------------------------------------------------
  // How the two recorders differ

  /** The Windows silence test ends a pause no later than the
      `StreamingRecorder` test for the same rate and duration: `int()`
      truncation of `sample_rate * duration` never raises the bar. */
  lemma WindowsPauseEndsNoLater(sampleRate: nat, frameSize: nat, d: Ratio, j: int)
    requires sampleRate > 0 && d.Valid()
    requires j * frameSize * d.den >= d.num * sampleRate
    ensures j * frameSize >= Samples(sampleRate, d)
  {
    var q := TruncDiv(sampleRate * d.num, d.den);
    var y := j * frameSize;
    if y < q {
      MulMonotone(y, q - 1, d.den);
    }
  }

  lemma MulMonotone(a: int, b: int, k: nat)
    requires a <= b
    ensures a * k <= b * k
  {
    assert b * k - a * k == (b - a) * k;
  }

  /** At 15 Hz with a half-second pause, the Windows recorder ends the pause
      after 7 silent frames (7 >= int(7.5)) while `StreamingRecorder` waits
      for 8 (7 / 15 < 0.5). */
  lemma PauseLengthsDiffer()
    ensures 7 * 1 >= Samples(15, Ratio(1, 2))
    ensures !SilenceElapsed(Settings(15, 1, 0, 0, 100, Ratio(1, 2), Ratio(1, 100)), 7)
    ensures SilenceElapsed(Settings(15, 1, 0, 0, 100, Ratio(1, 2), Ratio(1, 100)), 8)
  {}

  /** A silent frame that takes the accumulator to the maximum length
      finalizes it in `StreamingRecorder`, whose check follows every frame,
      but not in the Windows recorder, whose check follows speech frames. */
  lemma MaxCheckAfterSilentFrameDiffers()
    ensures var c := Settings(10, 1, 0, 0, 2, Ratio(10, 1), Ratio(1, 100));
      var v := VadState([32768], 1, 0, true, NoStats);
      Step(c, v, [0]).1 == Some(Chunk([32768, 0], MaxDuration))
    ensures var w := WinSettings(1, 0, 0, 2, 100, Ratio(1, 100), 32768);
      var v := VadState([32768], 1, 0, true, NoStats);
      WinStep(w, v, [0]).1 == None
  {
    var c := Settings(10, 1, 0, 0, 2, Ratio(10, 1), Ratio(1, 100));
    var v := VadState([32768], 1, 0, true, NoStats);
    assert SumSquares([0]) == 0 by { assert [0][1..] == []; }
    assert SumSquares([32768, 0]) == 32768 * 32768 by {
      assert [32768, 0][1..] == [0];
    }
    assert !HasAudio(c, [0]);
    var v1 := VadState([32768] + [0], 2, 1, true, NoStats);
    assert [32768] + [0] == [32768, 0];
    assert HasAudio(c, v1.speech);
    assert !SilenceElapsed(c, 1);
    assert Step(c, v, [0]) == MaxCheck(c, v1);
  }

  /** A flush emits the accumulator even when it would fail the energy test
      as a whole, where `StreamingRecorder` skips it: one loud sample and
      four silent ones, with threshold 0.5. */
  lemma FlushSkipsGate()
    ensures var w := WinSettings(1, 0, 0, 100, 4, Ratio(1, 2), 1);
      var v := VadState([1, 0, 0, 0], 4, 3, true, NoStats);
      WinStep(w, v, [0]).1 == Some([1, 0, 0, 0, 0]) && !WinHasAudio(w, [1, 0, 0, 0, 0])
    ensures var c := Settings(1, 1, 0, 0, 100, Ratio(4, 1), Ratio(1, 2));
      !HasAudio(c, [1, 0, 0, 0, 0])
  {
    assert SumSquares([1, 0, 0, 0, 0]) == 1 by {
      assert [1, 0, 0, 0, 0][1..] == [0, 0, 0, 0];
      assert [0, 0, 0, 0][1..] == [0, 0, 0];
      assert [0, 0, 0][1..] == [0, 0];
      assert [0, 0][1..] == [0];
      assert [0][1..] == [];
    }
    assert [1, 0, 0, 0] + [0] == [1, 0, 0, 0, 0];
  }

  // ---------------------------------------------------------------------
  // The recorder

  class WindowsAudioRecorder {
    const settings: WinSettings
    const vadMode: bool

    var buffer: seq<int>
    /** `chunk_queue`: finished chunks waiting for `get_next_chunk`. */
    var chunkQueue: seq<seq<int>>
    var speechBuffer: seq<int>
    var currentChunkSamples: int
    var consecutiveSilenceFrames: int
    var inSpeech: bool
    var stats: Stats

    function Vad(): VadState
      reads this`speechBuffer, this`currentChunkSamples, this`consecutiveSilenceFrames, this`inSpeech, this`stats
    {
      VadState(speechBuffer, currentChunkSamples, consecutiveSilenceFrames, inSpeech, stats)
    }

    ghost predicate Valid()
      reads this`speechBuffer, this`currentChunkSamples, this`consecutiveSilenceFrames, this`inSpeech, this`stats
    {
      ValidWin(settings) && (vadMode ==> settings.frameSize > 0)
      && WinInv(settings, Vad()) && WinStatsInv(vadMode, stats)
    }

    /** `__init__`; `unit` is the quantum the float samples are written in. */
    constructor (sampleRate: nat, chunkDuration: Ratio, overlapDuration: Ratio, silenceThreshold: Ratio,
                 vadMode: bool, vadSilenceDuration: Ratio, vadMaxDuration: Ratio, unit: nat)
      requires sampleRate >= 10 && unit > 0
      requires chunkDuration.Valid() && overlapDuration.Valid() && silenceThreshold.Valid()
      requires vadSilenceDuration.Valid() && vadMaxDuration.Valid()
      ensures settings == WinSettings(sampleRate / 10, Samples(sampleRate, chunkDuration),
                                      Samples(sampleRate, overlapDuration), Samples(sampleRate, vadMaxDuration),
                                      Samples(sampleRate, vadSilenceDuration), silenceThreshold, unit)
      ensures this.vadMode == vadMode
      ensures Valid() && Vad() == Initial && buffer == [] && chunkQueue == []
    {
      settings := WinSettings(sampleRate / 10, Samples(sampleRate, chunkDuration),
                              Samples(sampleRate, overlapDuration), Samples(sampleRate, vadMaxDuration),
                              Samples(sampleRate, vadSilenceDuration), silenceThreshold, unit);
      this.vadMode := vadMode;
      buffer := [];
      chunkQueue := [];
      speechBuffer := [];
      currentChunkSamples := 0;
      consecutiveSilenceFrames := 0;
      inSpeech := false;
      stats := NoStats;
    }

    /** `_flush_vad_buffer` */
    method FlushVadBuffer()
      modifies this`speechBuffer, this`currentChunkSamples, this`consecutiveSilenceFrames, this`inSpeech,
               this`stats, this`chunkQueue
      ensures Vad() == Flush(old(Vad())).0
      ensures chunkQueue == old(chunkQueue) + (if old(speechBuffer) != [] then [old(speechBuffer)] else [])
    {
      if |speechBuffer| > 0 {
        chunkQueue := chunkQueue + [speechBuffer];
        stats := stats.(withAudio := stats.withAudio + 1);
        stats := stats.(total := stats.total + 1);
      }
      speechBuffer := [];
      currentChunkSamples := 0;
      consecutiveSilenceFrames := 0;
      inSpeech := false;
    }

    /** One pass of the frame loop of `_process_vad_mode`. */
    method ProcessFrame(frame: seq<int>)
      requires Valid() && vadMode && |frame| == settings.frameSize
      modifies this`speechBuffer, this`currentChunkSamples, this`consecutiveSilenceFrames, this`inSpeech,
               this`stats, this`chunkQueue
      ensures Valid()
      ensures Vad() == WinStep(settings, old(Vad()), frame).0
      ensures chunkQueue == old(chunkQueue) + Listed(WinStep(settings, old(Vad()), frame).1)
    {
      WinStepFacts(settings, Vad(), frame);
      UpdateFields(frame);
    }

    /** The field updates of one frame pass. */
    method UpdateFields(frame: seq<int>)
      requires Valid() && vadMode && |frame| == settings.frameSize
      modifies this`speechBuffer, this`currentChunkSamples, this`consecutiveSilenceFrames, this`inSpeech,
               this`stats, this`chunkQueue
      ensures Vad() == WinStep(settings, old(Vad()), frame).0
      ensures chunkQueue == old(chunkQueue) + Listed(WinStep(settings, old(Vad()), frame).1)
    {
      if WinHasAudio(settings, frame) {
        inSpeech := true;
        speechBuffer := speechBuffer + frame;
        currentChunkSamples := currentChunkSamples + |frame|;
        consecutiveSilenceFrames := 0;
        if currentChunkSamples >= settings.maxSamples {
          FlushVadBuffer();
          stats := stats.(byMax := stats.byMax + 1);
        }
      } else if inSpeech {
        speechBuffer := speechBuffer + frame;
        currentChunkSamples := currentChunkSamples + |frame|;
        consecutiveSilenceFrames := consecutiveSilenceFrames + 1;
        if consecutiveSilenceFrames * settings.frameSize >= settings.silenceSamples {
          FlushVadBuffer();
          stats := stats.(bySilence := stats.bySilence + 1);
        }
      }
    }

    /** One frame taken from the buffer and processed. */
    method TakeFrame()
      requires Valid() && vadMode && |buffer| >= settings.frameSize
      modifies this`buffer, this`speechBuffer, this`currentChunkSamples, this`consecutiveSilenceFrames,
               this`inSpeech, this`stats, this`chunkQueue
      ensures Valid() && |buffer| < |old(buffer)|
      ensures var r := WinVad(settings, old(Vad()), old(buffer));
        var r' := WinVad(settings, Vad(), buffer);
        r'.0 == r.0 && r'.1 == r.1 && chunkQueue + r'.2 == old(chunkQueue) + r.2
    {
      ghost var before, queued, whole := Vad(), chunkQueue, buffer;
      var frame := buffer[..settings.frameSize];
      buffer := buffer[settings.frameSize..];
      ProcessFrame(frame);
      ghost var out := WinStep(settings, before, frame).1;
      ghost var r' := WinVad(settings, Vad(), buffer);
      assert WinVad(settings, before, whole) == (r'.0, r'.1, Listed(out) + r'.2) by {
        assert whole == frame + buffer;
        WinVadUnfold(settings, before, frame, buffer);
      }
      ListedAssoc(queued, out, r'.2);
    }

    /** `_process_vad_mode` */
    method ProcessVadMode()
      requires Valid() && vadMode
      modifies this`buffer, this`speechBuffer, this`currentChunkSamples, this`consecutiveSilenceFrames,
               this`inSpeech, this`stats, this`chunkQueue
      ensures Valid() && |buffer| < settings.frameSize
      ensures var (w, rest, emitted) := WinVad(settings, old(Vad()), old(buffer));
        Vad() == w && buffer == rest && chunkQueue == old(chunkQueue) + emitted
    {
      ghost var goal := WinVad(settings, Vad(), buffer);
      while |buffer| >= settings.frameSize
        invariant Valid()
        invariant WinVad(settings, Vad(), buffer).0 == goal.0
        invariant WinVad(settings, Vad(), buffer).1 == goal.1
        invariant chunkQueue + WinVad(settings, Vad(), buffer).2 == old(chunkQueue) + goal.2
        decreases |buffer|
      {
        TakeFrame();
      }
    }

    /** `_process_fixed_chunks` */
    method ProcessFixedChunks()
      requires Valid() && !vadMode
      modifies this`buffer, this`stats, this`chunkQueue
      ensures Valid()
      ensures var (st, rest, out) := WinFixed(settings, old(stats), old(buffer));
        stats == st && buffer == rest && chunkQueue == old(chunkQueue) + (if out.Some? then [out.value] else [])
    {
      if |buffer| >= settings.chunkSamples {
        var chunk := SliceTo(buffer, settings.chunkSamples);
        if settings.overlapSamples > 0 {
          buffer := SliceFrom(buffer, settings.chunkSamples - settings.overlapSamples);
        } else {
          buffer := SliceFrom(buffer, settings.chunkSamples);
        }
        if WinHasAudio(settings, chunk) {
          chunkQueue := chunkQueue + [chunk];
          stats := stats.(withAudio := stats.withAudio + 1);
        } else {
          stats := stats.(skipped := stats.skipped + 1);
        }
        stats := stats.(total := stats.total + 1);
      }
    }

    /** One pass of `_process_audio_stream`: append the captured block and
        segment in the configured mode. */
    method ProcessAudioBlock(block: seq<int>)
      requires Valid()
      modifies this`buffer, this`speechBuffer, this`currentChunkSamples, this`consecutiveSilenceFrames,
               this`inSpeech, this`stats, this`chunkQueue
      ensures Valid()
      ensures vadMode ==> var (w, rest, emitted) := WinVad(settings, old(Vad()), old(buffer) + block);
        Vad() == w && buffer == rest && chunkQueue == old(chunkQueue) + emitted
      ensures !vadMode ==> var (st, rest, out) := WinFixed(settings, old(stats), old(buffer) + block);
        stats == st && buffer == rest && chunkQueue == old(chunkQueue) + (if out.Some? then [out.value] else [])
        && speechBuffer == old(speechBuffer) && inSpeech == old(inSpeech)
    {
      buffer := buffer + block;
      if vadMode {
        ProcessVadMode();
      } else {
        ProcessFixedChunks();
      }
    }

    /** `get_next_chunk`: the oldest queued chunk, or None when the queue is
        empty (the source waits 0.1 s first). */
    method GetNextChunk() returns (r: Option<seq<int>>)
      modifies this`chunkQueue
      ensures old(chunkQueue) == [] ==> r == None && chunkQueue == []
      ensures old(chunkQueue) != [] ==> r == Some(old(chunkQueue)[0]) && chunkQueue == old(chunkQueue)[1..]
    {
      if chunkQueue == [] {
        return None;
      }
      r := Some(chunkQueue[0]);
      chunkQueue := chunkQueue[1..];
    }

    /** `get_next_vad_chunk` is `get_next_chunk`. */
    method GetNextVadChunk() returns (r: Option<seq<int>>)
      modifies this`chunkQueue
      ensures old(chunkQueue) == [] ==> r == None && chunkQueue == []
      ensures old(chunkQueue) != [] ==> r == Some(old(chunkQueue)[0]) && chunkQueue == old(chunkQueue)[1..]
    {
      r := GetNextChunk();
    }
  }
}
