/** The segmentation engine of `StreamingRecorder`, as pure functions over
    its state.  A running sample buffer is cut into fixed frames; a
    Silence/Speech state machine appends speech frames (and the silent frames
    inside an utterance) to an accumulator; the accumulator is finalized on
    enough consecutive silence, on reaching the maximum length, or on stop,
    and is emitted only if the whole accumulator passes the energy test.
    Fixed-chunk mode cuts the buffer into chunks that keep an overlap.
    The class in streaming_recorder.dfy is proved to compute these functions. */
module VadSpec {
  import opened Values
  import opened Energy

  /** Normalisation of int16 samples: RMS is divided by 32768. */
  const Int16Unit: nat := 32768

  /** Why an accumulator was finalized: "silence", "max_duration", "exit". */
  datatype Reason = Silence | MaxDuration | Exit

  /** An emitted utterance.  The source saves the samples to a WAV file and
      returns its name; the model returns the samples. */
  datatype Chunk = Chunk(samples: seq<int>, reason: Reason)

  /** An item of the audio queue: a block of samples, or the `None` that the
      capture thread puts there when it fails. */
  datatype QueueItem = Block(samples: seq<int>) | ErrorSignal

  /** The outcome of asking for the next chunk.  `Failed` and `Stopped` are
      the two ways the source returns None; `Blocked` means the queue is empty
      and the source would be waiting on it: the state is kept, and a later
      call continues from there. */
  datatype Fetch<T> = Got(value: T) | Failed | Stopped | Blocked

  /** The chunk counters of `debug_stats`. */
  datatype Stats = Stats(total: nat, withAudio: nat, skipped: nat, bySilence: nat, byMax: nat)

  /** The settings fixed at construction, in samples; the silence duration
      and the threshold are rationals standing for the source's floats. */
  datatype Settings = Settings(
    sampleRate: nat,
    frameSize: nat,
    chunkSamples: int,
    overlapSamples: int,
    maxSamples: int,
    silenceDuration: Ratio,
    threshold: Ratio)

  predicate ValidSettings(c: Settings) {
    c.sampleRate > 0 && c.frameSize > 0 && c.silenceDuration.Valid() && c.threshold.Valid()
  }

  /** The four VAD fields and the counters. */
  datatype VadState = VadState(
    speech: seq<int>,
    count: int,
    silentFrames: int,
    inSpeech: bool,
    stats: Stats)

  const NoStats := Stats(0, 0, 0, 0, 0)

  /** The state of a freshly constructed recorder. */
  const Initial := VadState([], 0, 0, false, NoStats)

  /** `int(x)` of a rational: truncation toward zero. */
  function TruncDiv(x: int, d: nat): (q: int)
    requires d > 0
    ensures x >= 0 ==> 0 <= q * d <= x < (q + 1) * d
    ensures x < 0 ==> (q - 1) * d < x <= q * d <= 0
  {
    DivBounds(if x >= 0 then x else -x, d);
    if x >= 0 then x / d else -((-x) / d)
  }

  /** Euclidean division of a non-negative number brackets it. */
  lemma DivBounds(x: nat, d: nat)
    requires d > 0
    ensures 0 <= (x / d) * d <= x < (x / d + 1) * d
  {
    var q, m := x / d, x % d;
    assert x == q * d + m && 0 <= m < d;
    assert (q + 1) * d == q * d + d;
  }

  /** `int(sample_rate * seconds)` */
  function Samples(sampleRate: nat, seconds: Ratio): int
    requires seconds.Valid()
  {
    TruncDiv(sampleRate * seconds.num, seconds.den)
  }

  /** The energy test of `_has_audio` on int16 samples. */
  predicate HasAudio(c: Settings, s: seq<int>)
    requires ValidSettings(c)
  {
    Loud(s, Int16Unit, c.threshold)
  }

  /** `frames * frame_size / sample_rate >= vad_silence_duration`,
      cross-multiplied. */
  predicate SilenceElapsed(c: Settings, frames: int)
    requires ValidSettings(c)
  {
    frames * c.frameSize * c.silenceDuration.den >= c.silenceDuration.num * c.sampleRate
  }

  /** `n` is a whole number of frames of size `f`. */
  predicate IsMultiple(n: int, f: nat)
    requires f > 0
    decreases if n < 0 then 0 else n
  {
    n == 0 || (n >= f && IsMultiple(n - f, f))
  }

  function Cleared(stats: Stats): VadState {
    VadState([], 0, 0, false, stats)
  }

  /** `_finalize_vad_chunk(reason)` */
  function Finalize(c: Settings, v: VadState, reason: Reason): (r: (VadState, Option<Chunk>))
    requires ValidSettings(c)
    ensures v.speech == [] ==> r == (v, None)
    ensures v.speech != [] ==> r.0 == Cleared(r.0.stats) && r.0.stats.total == v.stats.total + 1
    ensures r.1.Some? <==> v.speech != [] && HasAudio(c, v.speech)
    ensures r.1.Some? ==> r.1.value == Chunk(v.speech, reason)
  {
    if v.speech == [] then (v, None)
    else if HasAudio(c, v.speech) then
      var st := v.stats;
      var st' := st.(total := st.total + 1, withAudio := st.withAudio + 1,
                     bySilence := st.bySilence + (if reason == Silence then 1 else 0),
                     byMax := st.byMax + (if reason == MaxDuration then 1 else 0));
      (Cleared(st'), Some(Chunk(v.speech, reason)))
    else
      (Cleared(v.stats.(total := v.stats.total + 1, skipped := v.stats.skipped + 1)), None)
  }

  /** The maximum-duration failsafe that follows every frame. */
  function MaxCheck(c: Settings, v: VadState): (VadState, Option<Chunk>)
    requires ValidSettings(c)
  {
    if v.count >= c.maxSamples then Finalize(c, v, MaxDuration) else (v, None)
  }

  /** One pass of the frame loop on `frame`. */
  function Step(c: Settings, v: VadState, frame: seq<int>): (VadState, Option<Chunk>)
    requires ValidSettings(c)
  {
    if HasAudio(c, frame) then
      MaxCheck(c, VadState(v.speech + frame, v.count + |frame|, 0, true, v.stats))
    else if v.inSpeech then
      var v1 := VadState(v.speech + frame, v.count + |frame|, v.silentFrames + 1, true, v.stats);
      if SilenceElapsed(c, v1.silentFrames) then
        var (v2, out) := Finalize(c, v1, Silence);
        if out.Some? then (v2, out) else MaxCheck(c, v2)
      else
        MaxCheck(c, v1)
    else
      MaxCheck(c, v)
  }

  /** The frame loop: frames are taken from the front of `buf` while a whole
      one is there, until one of them completes a chunk.  Returns the new
      state, what is left of the buffer and the chunk, if any. */
  function Drain(c: Settings, v: VadState, buf: seq<int>): (VadState, seq<int>, Option<Chunk>)
    requires ValidSettings(c)
    decreases |buf|
  {
    if |buf| < c.frameSize then (v, buf, None)
    else
      var (w, out) := Step(c, v, buf[..c.frameSize]);
      if out.Some? then (w, buf[c.frameSize..], out)
      else Drain(c, w, buf[c.frameSize..])
  }

  /** The frame loop consumes whole frames from the front of the buffer, and
      stops early only when a chunk is complete. */
  lemma {:induction false} DrainShape(c: Settings, v: VadState, buf: seq<int>)
    requires ValidSettings(c)
    ensures var r := Drain(c, v, buf);
      && |r.1| <= |buf| && r.1 == buf[|buf| - |r.1|..]
      && IsMultiple(|buf| - |r.1|, c.frameSize)
      && (r.2.None? ==> |r.1| < c.frameSize)
    decreases |buf|
  {
    if |buf| >= c.frameSize {
      var (w, out) := Step(c, v, buf[..c.frameSize]);
      if out.None? {
        var tail := buf[c.frameSize..];
        DrainShape(c, w, tail);
        var r := Drain(c, w, tail);
        assert tail[|tail| - |r.1|..] == buf[|buf| - |r.1|..];
        assert |buf| - |r.1| - c.frameSize == |tail| - |r.1|;
      } else {
        assert |buf| - |buf[c.frameSize..]| == c.frameSize;
        assert IsMultiple(c.frameSize - c.frameSize, c.frameSize);
      }
    } else {
      assert IsMultiple(0, c.frameSize);
    }
  }

  /** The body of the outer loop of `get_next_vad_chunk` while the stop event
      is clear: take queue items and run the frame loop after each one. */
  function Collect(c: Settings, v: VadState, buf: seq<int>, q: seq<QueueItem>)
    : (VadState, seq<int>, seq<QueueItem>, Fetch<Chunk>)
    requires ValidSettings(c)
    decreases |q|
  {
    if q == [] then (v, buf, q, Blocked)
    else match q[0]
      case ErrorSignal => (v, buf, q[1..], Failed)
      case Block(b) =>
        var (w, rest, out) := Drain(c, v, buf + b);
        if out.Some? then (w, rest, q[1..], Got(out.value))
        else Collect(c, w, rest, q[1..])
  }

  /** Taking queue items consumes a prefix of the queue, all of it when the
      call ends blocked. */
  lemma {:induction false} CollectShape(c: Settings, v: VadState, buf: seq<int>, q: seq<QueueItem>)
    requires ValidSettings(c)
    ensures var r := Collect(c, v, buf, q);
      && |r.2| <= |q| && r.2 == q[|q| - |r.2|..]
      && (r.3.Blocked? ==> r.2 == [])
    decreases |q|
  {
    if q != [] && q[0].Block? {
      var (w, rest, out) := Drain(c, v, buf + q[0].samples);
      if out.None? {
        CollectShape(c, w, rest, q[1..]);
        var r := Collect(c, w, rest, q[1..]);
        assert q[1..][|q[1..]| - |r.2|..] == q[|q| - |r.2|..];
      }
    }
  }

  /** What `get_next_vad_chunk` does once it sees the stop event. */
  function ExitDrain(c: Settings, v: VadState): (VadState, Fetch<Chunk>)
    requires ValidSettings(c)
  {
    if |v.speech| > 0 then
      var (w, out) := Finalize(c, v, Exit);
      if out.Some? then (w, Got(out.value)) else (w, Stopped)
    else (v, Stopped)
  }

  /** `get_next_vad_chunk` with the stop event set (`stop`) or clear. */
  function NextVadChunk(c: Settings, v: VadState, buf: seq<int>, q: seq<QueueItem>, stop: bool)
    : (VadState, seq<int>, seq<QueueItem>, Fetch<Chunk>)
    requires ValidSettings(c)
  {
    if stop then
      var (w, out) := ExitDrain(c, v);
      (w, buf, q, out)
    else Collect(c, v, buf, q)
  }

  /** The counters of `debug_stats` agree, and bound the chunks per reason. */
  predicate StatsInv(st: Stats) {
    st.total == st.withAudio + st.skipped && st.bySilence + st.byMax <= st.withAudio
  }

  /** What holds of the VAD fields between any two frames. */
  ghost predicate Inv(c: Settings, v: VadState)
    requires ValidSettings(c)
  {
    && v.count == |v.speech|
    && (v.inSpeech <==> v.speech != [])
    && v.silentFrames >= 0
    && (!v.inSpeech ==> v.silentFrames == 0)
    && (v.silentFrames > 0 ==> !SilenceElapsed(c, v.silentFrames))
    && (v.speech != [] ==> |v.speech| < c.maxSamples)
    && IsMultiple(|v.speech|, c.frameSize)
    && StatsInv(v.stats)
  }

  lemma InitialInv(c: Settings)
    requires ValidSettings(c)
    ensures Inv(c, Initial)
  {}

  /** Finalizing a non-empty accumulator resets the VAD fields, whatever
      state they were in, and changes exactly one counter pair. */
  lemma FinalizeFacts(c: Settings, v: VadState, reason: Reason)
    requires ValidSettings(c) && StatsInv(v.stats) && (v.speech == [] ==> Inv(c, v))
    ensures var (w, out) := Finalize(c, v, reason);
      && Inv(c, w)
      && (out.Some? ==> w.stats.withAudio == v.stats.withAudio + 1 && w.stats.skipped == v.stats.skipped)
      && (out.None? ==> w.stats.withAudio == v.stats.withAudio)
      && (out.None? && v.speech != [] ==> w.stats.skipped == v.stats.skipped + 1)
      && (reason == Silence && out.Some? ==> w.stats.bySilence == v.stats.bySilence + 1)
      && (reason == MaxDuration && out.Some? ==> w.stats.byMax == v.stats.byMax + 1)
  {}

  /** The frame transitions, when the frame does not complete a chunk. */
  lemma StepTransitions(c: Settings, v: VadState, frame: seq<int>)
    requires ValidSettings(c) && Inv(c, v) && |frame| == c.frameSize
    ensures HasAudio(c, frame) && |v.speech| + |frame| < c.maxSamples ==>
      Step(c, v, frame) == (VadState(v.speech + frame, v.count + |frame|, 0, true, v.stats), None)
    ensures !HasAudio(c, frame) && v.inSpeech && !SilenceElapsed(c, v.silentFrames + 1)
            && |v.speech| + |frame| < c.maxSamples ==>
      Step(c, v, frame) == (VadState(v.speech + frame, v.count + |frame|, v.silentFrames + 1, true, v.stats), None)
    ensures !HasAudio(c, frame) && !v.inSpeech ==> Step(c, v, frame) == (v, None)
  {}

  /** The converse of the maximum-duration bound: a frame that extends an
      utterance (loud, or silent during speech without ending the pause) and
      brings the accumulator to `vad_max_samples` finalizes it, frame
      included, with reason `max_duration`.  A chunk is emitted exactly when
      the accumulator passes the energy test, and it is then counted as ended
      by the maximum duration. */
  lemma MaxReachedFinalizes(c: Settings, v: VadState, frame: seq<int>)
    requires ValidSettings(c) && Inv(c, v) && |frame| == c.frameSize
    requires HasAudio(c, frame) || v.inSpeech
    requires |v.speech| + |frame| >= c.maxSamples
    requires HasAudio(c, frame) || !SilenceElapsed(c, v.silentFrames + 1)
    ensures Step(c, v, frame) ==
      Finalize(c, VadState(v.speech + frame, |v.speech| + |frame|,
                           if HasAudio(c, frame) then 0 else v.silentFrames + 1, true, v.stats),
               MaxDuration)
    ensures var (w, out) := Step(c, v, frame);
      && w == Cleared(w.stats) && w.stats.total == v.stats.total + 1
      && (out.Some? <==> HasAudio(c, v.speech + frame))
      && (out.Some? ==> out.value == Chunk(v.speech + frame, MaxDuration)
                        && w.stats.byMax == v.stats.byMax + 1
                        && w.stats.withAudio == v.stats.withAudio + 1)
      && (out.None? ==> w.stats.skipped == v.stats.skipped + 1)
  {
    var v1 := VadState(v.speech + frame, |v.speech| + |frame|,
                       if HasAudio(c, frame) then 0 else v.silentFrames + 1, true, v.stats);
    assert Step(c, v, frame) == MaxCheck(c, v1);
    assert v1.speech != [];
  }

  /** What one frame of the loop guarantees: the invariant is kept; a chunk
      it completes is the accumulator with this frame, passes the energy
      test, is a whole number of frames and is bounded by the maximum plus one
      frame. */
  ghost predicate StepOutcome(c: Settings, v: VadState, frame: seq<int>, w: VadState, out: Option<Chunk>)
    requires ValidSettings(c)
  {
    && Inv(c, w)
    && (out.Some? ==> out.value.samples == v.speech + frame && HasAudio(c, out.value.samples)
                      && out.value.reason != Exit && w.speech == []
                      && w.stats.withAudio == v.stats.withAudio + 1)
    && (out.None? ==> w.stats.withAudio == v.stats.withAudio)
    && (out.Some? && out.value.reason == Silence ==>
          !HasAudio(c, frame) && SilenceElapsed(c, v.silentFrames + 1))
    && (out.Some? && out.value.reason == MaxDuration ==> |out.value.samples| >= c.maxSamples)
    && (out.Some? ==> |out.value.samples| == c.frameSize || |out.value.samples| < c.maxSamples + c.frameSize)
  }

  /** `StepOutcome` when the frame is loud. */
  lemma StepLoudFacts(c: Settings, v: VadState, frame: seq<int>)
    requires ValidSettings(c) && Inv(c, v) && |frame| == c.frameSize && HasAudio(c, frame)
    ensures StepOutcome(c, v, frame, Step(c, v, frame).0, Step(c, v, frame).1)
  {
    var v1 := VadState(v.speech + frame, v.count + |frame|, 0, true, v.stats);
    assert IsMultiple(|v1.speech|, c.frameSize) by {
      assert |v1.speech| - c.frameSize == |v.speech|;
    }
    assert Step(c, v, frame) == MaxCheck(c, v1);
    FinalizeFacts(c, v1, MaxDuration);
  }

  /** `StepOutcome` when the frame is silent inside an utterance. */
  lemma StepPauseFacts(c: Settings, v: VadState, frame: seq<int>)
    requires ValidSettings(c) && Inv(c, v) && |frame| == c.frameSize && !HasAudio(c, frame) && v.inSpeech
    ensures StepOutcome(c, v, frame, Step(c, v, frame).0, Step(c, v, frame).1)
  {
    var v1 := VadState(v.speech + frame, v.count + |frame|, v.silentFrames + 1, true, v.stats);
    assert IsMultiple(|v1.speech|, c.frameSize) by {
      assert |v1.speech| - c.frameSize == |v.speech|;
    }
    if SilenceElapsed(c, v1.silentFrames) {
      FinalizeFacts(c, v1, Silence);
      var (v2, out) := Finalize(c, v1, Silence);
      if out.None? {
        assert v2.speech == [];
        FinalizeFacts(c, v2, MaxDuration);
      }
    } else {
      assert Step(c, v, frame) == MaxCheck(c, v1);
      FinalizeFacts(c, v1, MaxDuration);
    }
  }

  /** One frame keeps the invariant and bounds the chunk it completes. */
  lemma StepFacts(c: Settings, v: VadState, frame: seq<int>)
    requires ValidSettings(c) && Inv(c, v) && |frame| == c.frameSize
    ensures StepOutcome(c, v, frame, Step(c, v, frame).0, Step(c, v, frame).1)
  {
    if HasAudio(c, frame) {
      StepLoudFacts(c, v, frame);
    } else if v.inSpeech {
      StepPauseFacts(c, v, frame);
    } else {
      FinalizeFacts(c, v, MaxDuration);
    }
  }

  /** What holds of a chunk the frame loop or the exit drain emits. */
  ghost predicate EmittedChunk(c: Settings, ch: Chunk)
    requires ValidSettings(c)
  {
    && ch.samples != []
    && HasAudio(c, ch.samples)
    && IsMultiple(|ch.samples|, c.frameSize)
    && (ch.reason == MaxDuration ==> |ch.samples| >= c.maxSamples)
    && (ch.reason != Exit ==> |ch.samples| == c.frameSize || |ch.samples| < c.maxSamples + c.frameSize)
  }

  /** The frame loop keeps the invariant; `chunks_with_audio` rises by one
      exactly when it returns a chunk, and the accumulator is then empty. */
  lemma {:induction false} DrainFacts(c: Settings, v: VadState, buf: seq<int>)
    requires ValidSettings(c) && Inv(c, v)
    ensures var (w, rest, out) := Drain(c, v, buf);
      && Inv(c, w)
      && (out.Some? ==> EmittedChunk(c, out.value) && out.value.reason != Exit && w.speech == []
                        && w.stats.withAudio == v.stats.withAudio + 1)
      && (out.None? ==> w.stats.withAudio == v.stats.withAudio)
    decreases |buf|
  {
    if |buf| >= c.frameSize {
      var frame := buf[..c.frameSize];
      StepFacts(c, v, frame);
      var (w, out) := Step(c, v, frame);
      if out.None? {
        DrainFacts(c, w, buf[c.frameSize..]);
      } else {
        assert |out.value.samples| - c.frameSize == |v.speech|;
      }
    }
  }

  /** Taking queue items keeps the invariant, and a chunk is emitted exactly
      when `chunks_with_audio` rises by one. */
  lemma {:induction false} CollectFacts(c: Settings, v: VadState, buf: seq<int>, q: seq<QueueItem>)
    requires ValidSettings(c) && Inv(c, v)
    ensures var (w, rest, q', out) := Collect(c, v, buf, q);
      && Inv(c, w)
      && (out.Got? ==> EmittedChunk(c, out.value) && out.value.reason != Exit && w.speech == []
                       && w.stats.withAudio == v.stats.withAudio + 1)
      && (!out.Got? ==> w.stats.withAudio == v.stats.withAudio)
    decreases |q|
  {
    if q != [] && q[0].Block? {
      DrainFacts(c, v, buf + q[0].samples);
      var (w, rest, out) := Drain(c, v, buf + q[0].samples);
      if out.None? {
        CollectFacts(c, w, rest, q[1..]);
      }
    }
  }

  /** The exit drain emits the whole accumulator, with reason "exit", if it
      passes the energy test, and leaves the VAD fields reset either way. */
  lemma ExitDrainFacts(c: Settings, v: VadState)
    requires ValidSettings(c) && Inv(c, v)
    ensures var (w, out) := ExitDrain(c, v);
      && Inv(c, w)
      && w.speech == [] && !w.inSpeech
      && (out.Got? <==> v.speech != [] && HasAudio(c, v.speech))
      && (out.Got? ==> out.value == Chunk(v.speech, Exit) && EmittedChunk(c, out.value)
                       && w.stats.withAudio == v.stats.withAudio + 1)
      && (!out.Got? ==> out.Stopped? && w.stats.withAudio == v.stats.withAudio)
  {
    FinalizeFacts(c, v, Exit);
  }

  /** An error signal at the head of the queue ends the call at once, with
      neither the state nor the buffer touched. */
  lemma ErrorSignalStops(c: Settings, v: VadState, buf: seq<int>, q: seq<QueueItem>)
    requires ValidSettings(c) && q != [] && q[0] == ErrorSignal
    ensures NextVadChunk(c, v, buf, q, false) == (v, buf, q[1..], Failed)
  {}

  // ---------------------------------------------------------------------
  // Silence-only input

  /** Every whole frame at the front of `x` fails the energy test. */
  predicate AllFramesSilent(c: Settings, x: seq<int>)
    requires ValidSettings(c)
    decreases |x|
  {
    |x| < c.frameSize || (!HasAudio(c, x[..c.frameSize]) && AllFramesSilent(c, x[c.frameSize..]))
  }

  /** The tail of `x` that is shorter than a frame. */
  function Partial(c: Settings, x: seq<int>): (p: seq<int>)
    requires ValidSettings(c)
    ensures |p| <= |x| && |p| < c.frameSize
    decreases |x|
  {
    if |x| < c.frameSize then x else Partial(c, x[c.frameSize..])
  }

  /** Splitting a silent stream: the front part is silent, and so is what its
      partial frame forms with the rest. */
  lemma {:induction false} AllFramesSilentSplit(c: Settings, x: seq<int>, y: seq<int>)
    requires ValidSettings(c) && AllFramesSilent(c, x + y)
    ensures AllFramesSilent(c, x)
    ensures AllFramesSilent(c, Partial(c, x) + y)
    decreases |x|
  {
    if |x| >= c.frameSize {
      assert (x + y)[..c.frameSize] == x[..c.frameSize];
      assert (x + y)[c.frameSize..] == x[c.frameSize..] + y;
      AllFramesSilentSplit(c, x[c.frameSize..], y);
    }
  }

  /** Outside speech, a silent buffer changes nothing but the buffer. */
  lemma {:induction false} SilentDrain(c: Settings, v: VadState, buf: seq<int>)
    requires ValidSettings(c) && Inv(c, v) && !v.inSpeech && AllFramesSilent(c, buf)
    ensures Drain(c, v, buf) == (v, Partial(c, buf), None)
    decreases |buf|
  {
    if |buf| >= c.frameSize {
      StepTransitions(c, v, buf[..c.frameSize]);
      SilentDrain(c, v, buf[c.frameSize..]);
    }
  }

  /** The samples of the blocks of a queue, if it holds no error signal. */
  function QueueSamples(q: seq<QueueItem>): Option<seq<int>> {
    if q == [] then Some([])
    else match q[0]
      case ErrorSignal => None
      case Block(b) =>
        match QueueSamples(q[1..])
        case None => None
        case Some(rest) => Some(b + rest)
  }

  /** Silence-only input never produces a chunk: outside speech, when every
      frame the buffer and the queued blocks form is below the threshold,
      collection consumes the whole queue, emits nothing and leaves the VAD
      fields and the counters as they were. */
  lemma {:induction false} SilenceOnlyEmitsNothing(c: Settings, v: VadState, buf: seq<int>, q: seq<QueueItem>)
    requires ValidSettings(c) && Inv(c, v) && !v.inSpeech
    requires QueueSamples(q).Some? && AllFramesSilent(c, buf + QueueSamples(q).value)
    ensures var (w, rest, q', out) := Collect(c, v, buf, q);
      w == v && q' == [] && out == Blocked
    decreases |q|
  {
    if q != [] {
      var b := q[0].samples;
      var more := QueueSamples(q[1..]).value;
      assert buf + QueueSamples(q).value == (buf + b) + more;
      AllFramesSilentSplit(c, buf + b, more);
      SilentDrain(c, v, buf + b);
      SilenceOnlyEmitsNothing(c, v, Partial(c, buf + b), q[1..]);
    }
  }

  // ---------------------------------------------------------------------
  // Block boundaries

  /** Splitting the input into blocks does not change what the frame loop
      does, up to the first chunk. */
  lemma {:induction false} DrainAppend(c: Settings, v: VadState, a: seq<int>, b: seq<int>)
    requires ValidSettings(c) && Drain(c, v, a).2.None?
    ensures Drain(c, v, a + b) == Drain(c, Drain(c, v, a).0, Drain(c, v, a).1 + b)
    decreases |a|
  {
    if |a| >= c.frameSize {
      assert (a + b)[..c.frameSize] == a[..c.frameSize];
      assert (a + b)[c.frameSize..] == a[c.frameSize..] + b;
      DrainAppend(c, Step(c, v, a[..c.frameSize]).0, a[c.frameSize..], b);
    }
  }

  // ---------------------------------------------------------------------
  // An utterance followed by a pause

  /** `x` is a whole number of frames, each passing the energy test exactly
      when `loud` holds. */
  predicate Frames(c: Settings, x: seq<int>, loud: bool)
    requires ValidSettings(c)
    decreases |x|
  {
    x == [] || (|x| >= c.frameSize && HasAudio(c, x[..c.frameSize]) == loud && Frames(c, x[c.frameSize..], loud))
  }

  function FrameCount(c: Settings, x: seq<int>): nat
    requires ValidSettings(c)
    decreases |x|
  {
    if |x| < c.frameSize then 0 else 1 + FrameCount(c, x[c.frameSize..])
  }

  /** Loud frames, while the maximum is not reached, are all appended. */
  lemma {:induction false} LoudFramesAccumulate(c: Settings, v: VadState, l: seq<int>)
    requires ValidSettings(c) && Inv(c, v) && Frames(c, l, true) && |v.speech| + |l| < c.maxSamples
    ensures Drain(c, v, l) ==
      (VadState(v.speech + l, |v.speech| + |l|, if l == [] then v.silentFrames else 0,
                v.inSpeech || l != [], v.stats), [], None)
    decreases |l|
  {
    var target := VadState(v.speech + l, |v.speech| + |l|, if l == [] then v.silentFrames else 0,
                           v.inSpeech || l != [], v.stats);
    if l != [] {
      var frame, l' := l[..c.frameSize], l[c.frameSize..];
      var w := VadState(v.speech + frame, v.count + |frame|, 0, true, v.stats);
      assert Inv(c, w) && Drain(c, v, l) == Drain(c, w, l') by {
        StepTransitions(c, v, frame);
        StepFacts(c, v, frame);
      }
      LoudFramesAccumulate(c, w, l');
      assert w.speech + l' == v.speech + l by {
        assert l == frame + l';
        assert (v.speech + frame) + l' == v.speech + (frame + l');
      }
    } else {
      assert target == v by { assert v.speech + l == v.speech; }
    }
  }

  /** The accumulator a pause of `s` leads to, before it is finalized. */
  function Paused(v: VadState, s: seq<int>, k: int): VadState {
    VadState(v.speech + s, v.count + |s|, k, true, v.stats)
  }

  /** The silent frame that completes the pause finalizes the accumulator. */
  lemma LastPauseFrame(c: Settings, v: VadState, frame: seq<int>)
    requires ValidSettings(c) && v.inSpeech
    requires |frame| == c.frameSize && !HasAudio(c, frame) && SilenceElapsed(c, v.silentFrames + 1)
    requires |v.speech| + |frame| < c.maxSamples
    ensures var f := Finalize(c, Paused(v, frame, v.silentFrames + 1), Silence);
      Drain(c, v, frame) == (f.0, [], f.1)
  {
    var v1 := Paused(v, frame, v.silentFrames + 1);
    var f := Finalize(c, v1, Silence);
    assert frame[..c.frameSize] == frame && frame[c.frameSize..] == [];
    if f.1.None? {
      assert f.0.count == 0;
      assert MaxCheck(c, f.0) == (f.0, None);
    }
    assert Step(c, v, frame) == f;
  }

  /** A silent frame at the front of `s` that does not complete the pause is
      appended. */
  lemma InnerPauseFrame(c: Settings, v: VadState, s: seq<int>)
    requires ValidSettings(c) && Inv(c, v) && v.inSpeech && |s| >= c.frameSize
    requires !HasAudio(c, s[..c.frameSize]) && !SilenceElapsed(c, v.silentFrames + 1)
    requires |v.speech| + c.frameSize < c.maxSamples
    ensures Inv(c, Paused(v, s[..c.frameSize], v.silentFrames + 1))
    ensures Drain(c, v, s) == Drain(c, Paused(v, s[..c.frameSize], v.silentFrames + 1), s[c.frameSize..])
  {
    StepTransitions(c, v, s[..c.frameSize]);
    StepFacts(c, v, s[..c.frameSize]);
  }

  /** Silent frames inside an utterance are appended until the silence has
      lasted long enough; the frame that completes it finalizes the
      accumulator with reason "silence". */
  lemma {:induction false} PauseFinalizes(c: Settings, v: VadState, s: seq<int>, k: int)
    requires ValidSettings(c) && Inv(c, v) && v.inSpeech
    requires Frames(c, s, false) && s != [] && FrameCount(c, s) + v.silentFrames == k
    requires SilenceElapsed(c, k)
    requires forall j :: v.silentFrames < j < k ==> !SilenceElapsed(c, j)
    requires |v.speech| + |s| < c.maxSamples
    ensures var f := Finalize(c, Paused(v, s, k), Silence);
      Drain(c, v, s) == (f.0, [], f.1)
    decreases |s|
  {
    var frame, s' := s[..c.frameSize], s[c.frameSize..];
    assert s == frame + s';
    if s' == [] {
      assert s == frame;
      assert FrameCount(c, s) == 1;
      LastPauseFrame(c, v, frame);
    } else {
      var w := Paused(v, frame, v.silentFrames + 1);
      assert Inv(c, w) && Drain(c, v, s) == Drain(c, w, s') by {
        assert !SilenceElapsed(c, v.silentFrames + 1) by {
          assert FrameCount(c, s') >= 1 by { assert |s'| >= c.frameSize; }
        }
        InnerPauseFrame(c, v, s);
      }
      PauseFinalizes(c, w, s', k);
      assert Paused(w, s', k) == Paused(v, s, k) by {
        assert (v.speech + frame) + s' == v.speech + (frame + s');
      }
    }
  }

  /** An utterance of loud frames followed by exactly enough silent frames
      ends in one chunk with reason "silence" holding the utterance and the
      pause, when the whole passes the energy test, and in a skipped
      accumulator otherwise; the VAD fields are reset either way. */
  lemma UtteranceThenPause(c: Settings, v: VadState, l: seq<int>, s: seq<int>, k: int)
    requires ValidSettings(c) && Inv(c, v) && v.speech == []
    requires Frames(c, l, true) && l != []
    requires Frames(c, s, false) && s != [] && FrameCount(c, s) == k
    requires SilenceElapsed(c, k) && forall j :: 0 < j < k ==> !SilenceElapsed(c, j)
    requires |l| + |s| < c.maxSamples
    ensures var (w, rest, out) := Drain(c, v, l + s);
      && rest == []
      && w.speech == [] && !w.inSpeech
      && (out.Some? <==> HasAudio(c, l + s))
      && (out.Some? ==> out.value == Chunk(l + s, Silence) && w.stats.bySilence == v.stats.bySilence + 1)
      && (out.None? ==> w.stats.skipped == v.stats.skipped + 1)
  {
    var p := Paused(VadState(l, |l|, 0, true, v.stats), s, k);
    var f := Finalize(c, p, Silence);
    assert Drain(c, v, l + s) == (f.0, [], f.1) by {
      var u := VadState(l, |l|, 0, true, v.stats);
      assert Drain(c, v, l) == (u, [], None) && Inv(c, u) by {
        LoudFramesAccumulate(c, v, l);
        DrainFacts(c, v, l);
        assert v.speech + l == l;
      }
      assert Drain(c, v, l + s) == Drain(c, u, s) by {
        DrainAppend(c, v, l, s);
        assert [] + s == s;
      }
      PauseFinalizes(c, u, s, k);
    }
    assert p.speech == l + s;
    FinalizeFacts(c, p, Silence);
  }

  // ---------------------------------------------------------------------
  // Fixed-chunk mode (`get_next_chunk`)

  /** The slice index Python uses for `s[:i]` and `s[i:]`: negative indices
      count from the end, and both ends are clamped. */
  function PyIndex(n: nat, i: int): (k: nat)
    ensures k <= n
    ensures 0 <= i <= n ==> k == i
    ensures -(n as int) <= i < 0 ==> k == n + i
  {
    if i >= 0 then (if i <= n then i else n) else (if n + i >= 0 then n + i else 0)
  }

  function SliceTo(s: seq<int>, i: int): seq<int> {
    s[..PyIndex(|s|, i)]
  }

  function SliceFrom(s: seq<int>, i: int): seq<int> {
    s[PyIndex(|s|, i)..]
  }

  /** The settings under which fixed-chunk collection always makes
      progress: a positive chunk size, and an overlap either smaller than the
      chunk or above it by less than a chunk (a negative slice index that
      still drops samples). */
  predicate FixedSettings(c: Settings) {
    && ValidSettings(c) && c.chunkSamples > 0
    && (c.overlapSamples < c.chunkSamples || c.chunkSamples < c.overlapSamples < 2 * c.chunkSamples)
  }

  /** The overlap width actually kept: `overlap_samples` when positive. */
  function Kept(c: Settings): nat {
    if c.overlapSamples > 0 then c.overlapSamples else 0
  }

  /** The buffer kept after a chunk is cut: `buffer[chunk - overlap:]` with
      Python's slice semantics when the overlap is positive,
      `buffer[chunk:]` otherwise.  An overlap below the chunk keeps the last
      `overlap_samples` of the chunk and what follows it; an overlap above
      the chunk keeps only the last `overlap - chunk` samples. */
  function FixedRest(c: Settings, buf: seq<int>): (r: seq<int>)
    requires FixedSettings(c) && |buf| >= c.chunkSamples
    ensures |r| < |buf|
    ensures c.overlapSamples < c.chunkSamples ==> r == buf[c.chunkSamples - Kept(c)..]
    ensures c.chunkSamples < c.overlapSamples ==> r == buf[|buf| - (c.overlapSamples - c.chunkSamples)..]
  {
    if c.overlapSamples > 0 then SliceFrom(buf, c.chunkSamples - c.overlapSamples)
    else SliceFrom(buf, c.chunkSamples)
  }

  /** The body of `get_next_chunk` while the stop event is clear: fill the
      buffer from the queue up to a chunk, extract and gate it, and go on
      after a skipped chunk. */
  function FixedCollect(c: Settings, st: Stats, buf: seq<int>, q: seq<QueueItem>)
    : (r: (Stats, seq<int>, seq<QueueItem>, Fetch<seq<int>>))
    requires FixedSettings(c)
    ensures r.3.Got? ==> |r.3.value| == c.chunkSamples
    decreases |q|, |buf|
  {
    if |buf| < c.chunkSamples then
      if q == [] then (st, buf, q, Blocked)
      else match q[0]
        case ErrorSignal => (st, buf, q[1..], Failed)
        case Block(b) => FixedCollect(c, st, buf + b, q[1..])
    else
      var chunk := buf[..c.chunkSamples];
      var rest := FixedRest(c, buf);
      var st1 := st.(total := st.total + 1);
      if HasAudio(c, chunk) then (st1.(withAudio := st1.withAudio + 1), rest, q, Got(chunk))
      else FixedCollect(c, st1.(skipped := st1.skipped + 1), rest, q)
  }

  /** Fixed-chunk collection consumes a prefix of the queue, all of it when
      it ends blocked with less than a chunk buffered. */
  lemma {:induction false} FixedCollectShape(c: Settings, st: Stats, buf: seq<int>, q: seq<QueueItem>)
    requires FixedSettings(c)
    ensures var r := FixedCollect(c, st, buf, q);
      && |r.2| <= |q| && r.2 == q[|q| - |r.2|..]
      && (r.3.Blocked? ==> r.2 == [] && |r.1| < c.chunkSamples)
    decreases |q|, |buf|
  {
    if |buf| < c.chunkSamples {
      if q != [] && q[0].Block? {
        FixedCollectShape(c, st, buf + q[0].samples, q[1..]);
        var r := FixedCollect(c, st, buf + q[0].samples, q[1..]);
        assert q[1..][|q[1..]| - |r.2|..] == q[|q| - |r.2|..];
      }
    } else if !HasAudio(c, buf[..c.chunkSamples]) {
      var st1 := st.(total := st.total + 1, skipped := st.skipped + 1);
      var rest := FixedRest(c, buf);
      assert FixedCollect(c, st, buf, q) == FixedCollect(c, st1, rest, q);
      FixedCollectShape(c, st1, rest, q);
    }
  }

  /** `get_next_chunk` with the stop event set (`stop`) or clear. */
  function NextChunk(c: Settings, st: Stats, buf: seq<int>, q: seq<QueueItem>, stop: bool)
    : (Stats, seq<int>, seq<QueueItem>, Fetch<seq<int>>)
    requires FixedSettings(c)
  {
    if stop then (st, buf, q, Stopped) else FixedCollect(c, st, buf, q)
  }

  /** Every extracted fixed chunk counts once, as with-audio or skipped:
      the difference between the total and the two counts never changes, and
      `chunks_with_audio` rises by one exactly when a chunk is returned. */
  lemma {:induction false} FixedCollectCounts(c: Settings, st: Stats, buf: seq<int>, q: seq<QueueItem>)
    requires FixedSettings(c)
    ensures var r := FixedCollect(c, st, buf, q);
      && r.0.total - r.0.withAudio - r.0.skipped == st.total - st.withAudio - st.skipped
      && r.0.withAudio == st.withAudio + (if r.3.Got? then 1 else 0)
      && r.0.skipped >= st.skipped
      && r.0.bySilence == st.bySilence && r.0.byMax == st.byMax
    decreases |q|, |buf|
  {
    if |buf| < c.chunkSamples {
      if q != [] && q[0].Block? {
        FixedCollectCounts(c, st, buf + q[0].samples, q[1..]);
      }
    } else if !HasAudio(c, buf[..c.chunkSamples]) {
      var st1 := st.(total := st.total + 1, skipped := st.skipped + 1);
      var rest := FixedRest(c, buf);
      assert FixedCollect(c, st, buf, q) == FixedCollect(c, st1, rest, q);
      FixedCollectCounts(c, st1, rest, q);
    }
  }

  /** A returned fixed chunk passes the energy test.  With an overlap below
      the chunk, the buffer left behind starts with the chunk's last
      `overlap_samples` samples; with an overlap above the chunk, it holds
      exactly `overlap_samples - chunk_samples` samples. */
  lemma {:induction false} FixedCollectOverlap(c: Settings, st: Stats, buf: seq<int>, q: seq<QueueItem>)
    requires FixedSettings(c)
    ensures var r := FixedCollect(c, st, buf, q);
      r.3.Got? ==> HasAudio(c, r.3.value)
    ensures var r := FixedCollect(c, st, buf, q);
      r.3.Got? && c.overlapSamples < c.chunkSamples ==>
        |r.1| >= Kept(c) && r.1[..Kept(c)] == r.3.value[c.chunkSamples - Kept(c)..]
    ensures var r := FixedCollect(c, st, buf, q);
      r.3.Got? && c.chunkSamples < c.overlapSamples ==> |r.1| == c.overlapSamples - c.chunkSamples
    decreases |q|, |buf|
  {
    if |buf| < c.chunkSamples {
      if q != [] && q[0].Block? {
        FixedCollectOverlap(c, st, buf + q[0].samples, q[1..]);
      }
    } else {
      var rest := FixedRest(c, buf);
      if !HasAudio(c, buf[..c.chunkSamples]) {
        var st1 := st.(total := st.total + 1, skipped := st.skipped + 1);
        assert FixedCollect(c, st, buf, q) == FixedCollect(c, st1, rest, q);
        FixedCollectOverlap(c, st1, rest, q);
      } else if c.overlapSamples < c.chunkSamples {
        assert rest[..Kept(c)] == buf[c.chunkSamples - Kept(c)..c.chunkSamples];
      }
    }
  }

  /** When no chunk was skipped on the way, the returned chunk begins with
      what the buffer held. */
  lemma {:induction false} FixedCollectPrefix(c: Settings, st: Stats, buf: seq<int>, q: seq<QueueItem>)
    requires FixedSettings(c)
    ensures var r := FixedCollect(c, st, buf, q);
      var m := if |buf| < c.chunkSamples then |buf| else c.chunkSamples;
      r.3.Got? && r.0.skipped == st.skipped ==> r.3.value[..m] == buf[..m]
    decreases |q|, |buf|
  {
    if |buf| < c.chunkSamples {
      if q != [] && q[0].Block? {
        var b := q[0].samples;
        FixedCollectPrefix(c, st, buf + b, q[1..]);
        var r := FixedCollect(c, st, buf + b, q[1..]);
        if r.3.Got? && r.0.skipped == st.skipped {
          var m' := if |buf + b| < c.chunkSamples then |buf + b| else c.chunkSamples;
          assert r.3.value[..|buf|] == r.3.value[..m'][..|buf|];
          assert (buf + b)[..m'][..|buf|] == buf;
        }
      }
    } else if !HasAudio(c, buf[..c.chunkSamples]) {
      var st1 := st.(total := st.total + 1, skipped := st.skipped + 1);
      var rest := FixedRest(c, buf);
      assert FixedCollect(c, st, buf, q) == FixedCollect(c, st1, rest, q);
      FixedCollectCounts(c, st1, rest, q);
    }
  }

  /** Consecutive fixed chunks overlap: with an overlap below the chunk and
      unless a chunk was skipped in between, the chunk after `first` begins
      with the last `overlap_samples` samples of `first`. */
  lemma ConsecutiveChunksOverlap(c: Settings, st: Stats, buf: seq<int>, q: seq<QueueItem>)
    requires FixedSettings(c)
    requires FixedCollect(c, st, buf, q).3.Got?
    ensures var (st1, rest, q1, first) := FixedCollect(c, st, buf, q);
      var (st2, rest2, q2, second) := FixedCollect(c, st1, rest, q1);
      c.overlapSamples < c.chunkSamples && second.Got? && st2.skipped == st1.skipped ==>
        second.value[..Kept(c)] == first.value[c.chunkSamples - Kept(c)..]
  {
    FixedCollectOverlap(c, st, buf, q);
    var (st1, rest, q1, first) := FixedCollect(c, st, buf, q);
    FixedCollectPrefix(c, st1, rest, q1);
    var (st2, rest2, q2, second) := FixedCollect(c, st1, rest, q1);
    if c.overlapSamples < c.chunkSamples && second.Got? && st2.skipped == st1.skipped {
      var m := if |rest| < c.chunkSamples then |rest| else c.chunkSamples;
      assert second.value[..Kept(c)] == second.value[..m][..Kept(c)];
      assert rest[..m][..Kept(c)] == rest[..Kept(c)];
    }
  }
}
