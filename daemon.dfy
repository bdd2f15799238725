/** `ScribeDaemon`: the long-running process that holds the Whisper model,
    answers the five commands, owns the recorder while recording and
    publishes transcriptions.  The recorder, the model and the IPC server
    are collaborators: the daemon's view of them is the recorder settings it
    created, the model it loaded last and the messages it handed to
    `broadcast_message`. */
module Daemon {
  import opened Values
  import Ipc

  // ---------------------------------------------------------------------
  // Configuration

  /** The configuration a new daemon starts with.  The floats 5.0, 1.0,
      0.01, 0.5 and 30.0 are `Num` values. */
  function DefaultConfig(): (c: Message)
    ensures "model" in c && c["model"] == Str("base") && "command" !in c
  {
    map[
      "model" := Str("base"),
      "language" := Null,
      "chunk_duration" := Num(5.0),
      "overlap_duration" := Num(1.0),
      "silence_threshold" := Num(0.01),
      "vad_silence_duration" := Num(0.5),
      "vad_max_duration" := Num(30.0),
      "debug" := Bool(false)]
  }

  /** The merge of `_handle_configure` restricted to the keys in `done`:
      a message key other than "command" that the configuration already has
      replaces its value. */
  function MergeOn(config: Message, message: Message, done: set<string>): Message {
    map k | k in config :: if k in done && k in message && k != "command" then message[k] else config[k]
  }

  /** Merging one more key updates that key alone, and the keys stay. */
  lemma MergeOnStep(config: Message, message: Message, done: set<string>, key: string)
    requires key in message
    ensures MergeOn(config, message, done).Keys == config.Keys
    ensures MergeOn(config, message, done + {key}) ==
      if key != "command" && key in config then MergeOn(config, message, done)[key := message[key]]
      else MergeOn(config, message, done)
  {
    var before, after := MergeOn(config, message, done), MergeOn(config, message, done + {key});
    assert before.Keys == config.Keys;
    if key != "command" && key in config {
      assert after == before[key := message[key]];
    } else {
      assert after == before;
    }
  }

  function Merge(config: Message, message: Message): Message {
    MergeOn(config, message, message.Keys)
  }

  /** The merge never adds or removes a key and never copies "command";
      known keys take the message's value and the rest keep theirs. */
  lemma MergeFacts(config: Message, message: Message)
    ensures Merge(config, message).Keys == config.Keys
    ensures "command" in config ==> Merge(config, message)["command"] == config["command"]
    ensures forall k :: k in config && k in message && k != "command" ==> Merge(config, message)[k] == message[k]
    ensures forall k :: k in config && k !in message ==> Merge(config, message)[k] == config[k]
  {}

  /** The reload test of `_handle_configure` runs after the merge, so it
      compares the new model with itself: it is false for every value equal
      to itself, which every `Value` is. */
  lemma ReloadTestNeverFires(config: Message, message: Message)
    requires "model" in config
    ensures !("model" in message && message["model"] != Get(Merge(config, message), "model", Null))
  {}

  /** A concrete case: asking a fresh daemon for the "small" model records
      "small" in the configuration, while the reload test stays false and
      the "base" model stays loaded. */
  lemma ConfigureModelChangeNotLoaded()
    ensures var message := map["command" := Str("configure"), "model" := Str("small")];
      var merged := Merge(DefaultConfig(), message);
      && merged["model"] == Str("small")
      && !(message["model"] != Get(merged, "model", Null))
      && DefaultConfig()["model"] != message["model"]
  {
    var message := map["command" := Str("configure"), "model" := Str("small")];
    assert "model" in message && "model" in DefaultConfig();
  }

  // ---------------------------------------------------------------------
  // Transcription events

  /** The characters Python's `str.strip()` removes. */
  predicate IsSpace(c: char) {
    c == ' ' || ('\t' <= c <= '\r') || ('\U{1C}' <= c <= '\U{1F}') || c == '\U{85}' || c == '\U{A0}'
    || c == '\U{1680}' || ('\U{2000}' <= c <= '\U{200A}') || c == '\U{2028}' || c == '\U{2029}'
    || c == '\U{202F}' || c == '\U{205F}' || c == '\U{3000}'
  }

  function StripStart(s: string): string {
    if s != [] && IsSpace(s[0]) then StripStart(s[1..]) else s
  }

  function StripEnd(s: string): string {
    if s != [] && IsSpace(s[|s| - 1]) then StripEnd(s[..|s| - 1]) else s
  }

  /** `str.strip()` */
  function Strip(s: string): string {
    StripEnd(StripStart(s))
  }

  /** `StripStart` drops the leading whitespace and nothing else. */
  lemma {:induction false} StripStartFacts(s: string)
    ensures var r := StripStart(s);
      && |r| <= |s| && r == s[|s| - |r|..]
      && (r != [] ==> !IsSpace(r[0]))
      && (forall i :: 0 <= i < |s| - |r| ==> IsSpace(s[i]))
  {
    if s != [] && IsSpace(s[0]) {
      StripStartFacts(s[1..]);
      var r := StripStart(s[1..]);
      assert s[1..][|s[1..]| - |r|..] == s[|s| - |r|..];
      forall i | 0 <= i < |s| - |r|
        ensures IsSpace(s[i])
      {
        if i > 0 {
          assert s[i] == s[1..][i - 1];
        }
      }
    }
  }

  /** `StripEnd` drops the trailing whitespace and nothing else. */
  lemma {:induction false} StripEndFacts(s: string)
    ensures var r := StripEnd(s);
      && |r| <= |s| && r == s[..|r|]
      && (r != [] ==> !IsSpace(r[|r| - 1]))
      && (forall i :: |r| <= i < |s| ==> IsSpace(s[i]))
  {
    if s != [] && IsSpace(s[|s| - 1]) {
      var init := s[..|s| - 1];
      StripEndFacts(init);
      var r := StripEnd(init);
      assert init[..|r|] == s[..|r|];
      forall i | |r| <= i < |s|
        ensures IsSpace(s[i])
      {
        if i < |s| - 1 {
          assert s[i] == init[i];
        }
      }
    }
  }

  /** Where the stripped text sits in the original. */
  lemma StripBounds(s: string) returns (i: nat, j: nat)
    ensures i <= j <= |s| && Strip(s) == s[i..j]
    ensures forall k :: 0 <= k < i ==> IsSpace(s[k])
    ensures forall k :: j <= k < |s| ==> IsSpace(s[k])
    ensures i < j ==> !IsSpace(s[i]) && !IsSpace(s[j - 1])
  {
    var t := StripStart(s);
    StripStartFacts(s);
    StripEndFacts(t);
    i := |s| - |t|;
    j := i + |StripEnd(t)|;
    assert Strip(s) == s[i..j];
    forall k | j <= k < |s|
      ensures IsSpace(s[k])
    {
      assert s[k] == t[k - i];
    }
    if i < j {
      assert s[i] == t[0] && s[j - 1] == StripEnd(t)[j - 1 - i];
    }
  }

  /** The stripped text is a slice of the original with no whitespace at
      either end, everything cut off is whitespace, and it is empty exactly
      when the text is all whitespace. */
  lemma StripFacts(s: string)
    ensures exists i, j :: (0 <= i <= j <= |s| && Strip(s) == s[i..j]
        && (forall k :: 0 <= k < i ==> IsSpace(s[k])) && (forall k :: j <= k < |s| ==> IsSpace(s[k])))
    ensures Strip(s) != [] ==> !IsSpace(Strip(s)[0]) && !IsSpace(Strip(s)[|Strip(s)| - 1])
    ensures Strip(s) == [] <==> forall k :: 0 <= k < |s| ==> IsSpace(s[k])
  {
    var i, j := StripBounds(s);
    if i < j {
      assert Strip(s)[0] == s[i] && Strip(s)[|Strip(s)| - 1] == s[j - 1];
    } else {
      forall k | 0 <= k < |s|
        ensures IsSpace(s[k])
      {
        if k >= i {
          assert k >= j;
        }
      }
    }
  }

  /** Stripping twice is stripping once. */
  lemma StripIdempotent(s: string)
    ensures Strip(Strip(s)) == Strip(s)
  {
    var r := Strip(s);
    StripFacts(s);
    if r != [] {
      assert StripStart(r) == r;
      assert StripEnd(r) == r;
    }
  }

  /** The message broadcast for one transcribed segment. */
  function TranscriptionEvent(text: string, time: Value): Message {
    map["type" := Str("transcription"), "text" := Str(text), "transcription_time" := time]
  }

  /** The message broadcast when transcribing a chunk fails. */
  function TranscriptionError(error: string): Message {
    map["type" := Str("error"), "message" := Str("Transcription error: " + error)]
  }

  /** The message broadcast when recording stops. */
  function RecordingStopped(): Message {
    map["type" := Str("recording_stopped"), "message" := Str("Recording stopped")]
  }

  /** The stripped text of every segment. */
  function StrippedTexts(segments: seq<string>): (r: seq<string>)
    ensures |r| == |segments|
  {
    if segments == [] then [] else [Strip(segments[0])] + StrippedTexts(segments[1..])
  }

  /** Text `k` is segment `k` stripped. */
  lemma {:induction false} StrippedTextsAt(segments: seq<string>, k: nat)
    requires k < |segments|
    ensures StrippedTexts(segments)[k] == Strip(segments[k])
  {
    if k > 0 {
      StrippedTextsAt(segments[1..], k - 1);
      assert segments[1..][k - 1] == segments[k];
    }
  }

  /** One transcription event per non-empty text, in order. */
  function TextEvents(texts: seq<string>, time: Value): (r: seq<Message>)
    ensures |r| <= |texts|
  {
    if texts == [] then []
    else (if texts[0] != [] then [TranscriptionEvent(texts[0], time)] else []) + TextEvents(texts[1..], time)
  }

  /** The events of `_transcription_worker` for one chunk: one per segment
      whose stripped text is non-empty, carrying that stripped text. */
  function SegmentEvents(segments: seq<string>, time: Value): (r: seq<Message>)
    ensures |r| <= |segments|
  {
    TextEvents(StrippedTexts(segments), time)
  }

  /** Event `e` is the transcription event of the non-empty text `k`. */
  predicate FromText(texts: seq<string>, k: int, e: Message, time: Value) {
    0 <= k < |texts| && texts[k] != [] && e == TranscriptionEvent(texts[k], time)
  }

  /** Event `e` is the transcription event of some non-empty text. */
  ghost predicate TextSourced(texts: seq<string>, e: Message, time: Value) {
    exists k :: FromText(texts, k, e, time)
  }

  /** Every event carries one of the non-empty texts. */
  lemma {:induction false} TextEventsFacts(texts: seq<string>, time: Value)
    ensures forall i :: 0 <= i < |TextEvents(texts, time)| ==>
      TextSourced(texts, TextEvents(texts, time)[i], time)
  {
    if texts != [] {
      TextEventsFacts(texts[1..], time);
      var rest := TextEvents(texts[1..], time);
      var head := if texts[0] != [] then [TranscriptionEvent(texts[0], time)] else [];
      assert TextEvents(texts, time) == head + rest;
      forall i | 0 <= i < |TextEvents(texts, time)|
        ensures TextSourced(texts, TextEvents(texts, time)[i], time)
      {
        if i < |head| {
          assert FromText(texts, 0, TextEvents(texts, time)[i], time);
        } else {
          var j := i - |head|;
          assert TextSourced(texts[1..], rest[j], time);
          var k :| FromText(texts[1..], k, rest[j], time);
          assert texts[1..][k] == texts[k + 1];
          assert FromText(texts, k + 1, TextEvents(texts, time)[i], time);
        }
      }
    } else {
      assert TextEvents(texts, time) == [];
    }
  }

  /** When every text is non-empty, every text yields its event. */
  lemma {:induction false} TextEventsAllKept(texts: seq<string>, time: Value)
    requires forall k :: 0 <= k < |texts| ==> texts[k] != []
    ensures |TextEvents(texts, time)| == |texts|
  {
    if texts != [] {
      assert forall k :: 0 <= k < |texts[1..]| ==> texts[1..][k] != [] by {
        forall k | 0 <= k < |texts[1..]|
          ensures texts[1..][k] != []
        {
          assert texts[1..][k] == texts[k + 1];
        }
      }
      TextEventsAllKept(texts[1..], time);
    }
  }

  /** Event `e` is the transcription event of segment `k`, which strips to
      a non-empty text. */
  predicate FromSegment(segments: seq<string>, k: int, e: Message, time: Value) {
    0 <= k < |segments| && Strip(segments[k]) != [] && e == TranscriptionEvent(Strip(segments[k]), time)
  }

  /** Event `e` is the transcription event of some segment. */
  ghost predicate Sourced(segments: seq<string>, e: Message, time: Value) {
    exists k :: FromSegment(segments, k, e, time)
  }

  /** Every event names a non-empty, stripped text that came from one of
      the segments. */
  lemma SegmentEventsFacts(segments: seq<string>, time: Value)
    ensures forall i :: 0 <= i < |SegmentEvents(segments, time)| ==>
      Sourced(segments, SegmentEvents(segments, time)[i], time)
  {
    var texts := StrippedTexts(segments);
    TextEventsFacts(texts, time);
    forall i | 0 <= i < |SegmentEvents(segments, time)|
      ensures Sourced(segments, SegmentEvents(segments, time)[i], time)
    {
      assert TextSourced(texts, TextEvents(texts, time)[i], time);
      var k :| FromText(texts, k, TextEvents(texts, time)[i], time);
      StrippedTextsAt(segments, k);
      assert FromSegment(segments, k, SegmentEvents(segments, time)[i], time);
    }
  }

  /** When every segment has text, every segment yields its event. */
  lemma SegmentEventsAllKept(segments: seq<string>, time: Value)
    requires forall k :: 0 <= k < |segments| ==> Strip(segments[k]) != []
    ensures |SegmentEvents(segments, time)| == |segments|
  {
    var texts := StrippedTexts(segments);
    forall k | 0 <= k < |texts|
      ensures texts[k] != []
    {
      StrippedTextsAt(segments, k);
    }
    TextEventsAllKept(texts, time);
  }

  /** The streaming client's view of the daemon's events: every
      transcription event delivers its text, the stop event ends the
      stream, and a transcription error is ignored, because it carries a
      "type" of "error" and no "status". */
  lemma EventsAsClassified(text: string, time: Value, error: string)
    ensures text != [] ==> Ipc.Classify(TranscriptionEvent(text, time)) == Ipc.Transcript(Str(text))
    ensures Ipc.Classify(RecordingStopped()) == Ipc.StoppedEnd
    ensures Ipc.Classify(TranscriptionError(error)) == Ipc.Ignored
  {
    assert "status" !in TranscriptionError(error);
    assert Str("error") != Str("transcription") && Str("error") != Str("recording_stopped");
    assert "status" !in RecordingStopped();
    assert Str("recording_stopped") != Str("transcription");
  }

  // ---------------------------------------------------------------------
  // The daemon

  /** The arguments `_start_recording` passes to `StreamingRecorder`. */
  datatype RecorderParams = RecorderParams(
    chunkDuration: Value, overlapDuration: Value, silenceThreshold: Value, debug: Value,
    vadMode: bool, vadSilenceDuration: Value, vadMaxDuration: Value)

  function RecorderFrom(config: Message): RecorderParams
    requires DefaultConfig().Keys <= config.Keys
  {
    RecorderParams(config["chunk_duration"], config["overlap_duration"], config["silence_threshold"],
                   config["debug"], true, config["vad_silence_duration"], config["vad_max_duration"])
  }

  /** How creating and starting the recorder went: the constructor or
      `start_streaming` may raise. */
  datatype StartOutcome = Started | ConstructorRaises(error: string) | StreamingRaises(error: string)

  /** What the model made of one chunk: all its segments, a failure before
      any segment, or a failure while the lazily decoded segments were being
      read, after `texts` had been yielded. */
  datatype Transcription =
    | Segments(texts: seq<string>, time: Value)
    | TranscribeRaises(error: string)
    | SegmentsThenRaises(texts: seq<string>, time: Value, error: string)

  /** One pass of the worker loop: the chunk `get_next_vad_chunk` returned
      (None on a timeout) and, for a chunk, what transcribing it gave. */
  datatype Turn = Turn(chunk: Option<seq<int>>, result: Transcription)

  /** The broadcasts for one pass of the worker loop. */
  function TurnEvents(t: Turn): seq<Message> {
    if t.chunk.None? then []
    else match t.result
      case Segments(texts, time) => SegmentEvents(texts, time)
      case TranscribeRaises(e) => [TranscriptionError(e)]
      case SegmentsThenRaises(texts, time, e) => SegmentEvents(texts, time) + [TranscriptionError(e)]
  }

  function WorkerEvents(turns: seq<Turn>): seq<Message> {
    if turns == [] then [] else TurnEvents(turns[0]) + WorkerEvents(turns[1..])
  }

  /** The segment loop from position `i`, after broadcasts `acc`. */
  lemma TextEventsStep(texts: seq<string>, i: nat, acc: seq<Message>, time: Value)
    requires i < |texts|
    ensures texts[i] != [] ==>
      (acc + [TranscriptionEvent(texts[i], time)]) + TextEvents(texts[i + 1..], time) == acc + TextEvents(texts[i..], time)
    ensures texts[i] == [] ==> acc + TextEvents(texts[i + 1..], time) == acc + TextEvents(texts[i..], time)
  {
    assert texts[i..][0] == texts[i] && texts[i..][1..] == texts[i + 1..];
    var rest := TextEvents(texts[i + 1..], time);
    if texts[i] != [] {
      assert (acc + [TranscriptionEvent(texts[i], time)]) + rest == acc + ([TranscriptionEvent(texts[i], time)] + rest);
    } else {
      assert [] + rest == rest;
    }
  }

  /** The worker loop from position `i`, after broadcasts `acc`. */
  lemma WorkerEventsStep(turns: seq<Turn>, i: nat, acc: seq<Message>)
    requires i < |turns|
    ensures (acc + TurnEvents(turns[i])) + WorkerEvents(turns[i + 1..]) == acc + WorkerEvents(turns[i..])
  {
    var t, e, rest := turns[i..], TurnEvents(turns[i]), WorkerEvents(turns[i + 1..]);
    assert t != [] && t[0] == turns[i] && t[1..] == turns[i + 1..];
    assert WorkerEvents(t) == e + rest;
    assert (acc + e) + rest == acc + (e + rest);
  }

  class ScribeDaemon {
    var config: Message
    var recording: bool
    var running: bool
    var recorder: Option<RecorderParams>
    /** The model name `whisper_model` was loaded from, if any. */
    var loadedModel: Option<Value>
    /** The messages handed to the IPC server's `broadcast_message`. */
    var broadcasts: seq<Message>

    /** The configuration keeps the default keys; configure may change
        their values only. */
    ghost predicate Valid()
      reads this`config
    {
      config.Keys == DefaultConfig().Keys
    }

    constructor ()
      ensures Valid() && config == DefaultConfig()
      ensures !recording && !running && recorder == None && loadedModel == None && broadcasts == []
    {
      config := DefaultConfig();
      recording := false;
      running := false;
      recorder := None;
      loadedModel := None;
      broadcasts := [];
    }

    /** `_load_model` */
    method LoadModel(name: Value)
      modifies this`loadedModel
      ensures loadedModel == Some(name)
    {
      loadedModel := Some(name);
    }

    /** `start` up to the main loop: the configured model is loaded and the
        daemon runs. */
    method Start()
      requires Valid()
      modifies this`loadedModel, this`running
      ensures running && loadedModel == Some(config["model"])
    {
      LoadModel(config["model"]);
      running := true;
    }

    /** The signal handler. */
    method SignalHandler()
      modifies this`running
      ensures !running
    {
      running := false;
    }

    /** `stop` */
    method Stop()
      modifies this`running, this`recording, this`recorder, this`broadcasts
      ensures !running && !recording
      ensures old(recording) ==> recorder == None && broadcasts == old(broadcasts) + [RecordingStopped()]
      ensures !old(recording) ==> recorder == old(recorder) && broadcasts == old(broadcasts)
    {
      running := false;
      if recording {
        StopRecording();
      }
    }

    /** `_handle_configure`, as written: the merge runs first, so the
        reload test that follows compares the new model with itself. */
    method HandleConfigure(message: Message) returns (reply: Message)
      requires Valid()
      modifies this`config, this`loadedModel
      ensures Valid() && reply == SuccessReply("Configuration updated")
      ensures config == Merge(old(config), message)
      ensures loadedModel == old(loadedModel)
    {
      MergeMessage(message);
      if "model" in message && message["model"] != Get(config, "model", Null) {
        // The source reloads here: `_load_model` with the message's model,
        // then writes that model into the configuration.  After the merge
        // the test is false for every value equal to itself
        // (`ReloadTestNeverFires`), so the branch is dead here.
        assert false;
      }
      return SuccessReply("Configuration updated");
    }

    /** `_handle_configure` as evidently intended: the model is reloaded
        when the message asks for a different one than was configured. */
    method HandleConfigureIntended(message: Message) returns (reply: Message)
      requires Valid()
      modifies this`config, this`loadedModel
      ensures Valid() && reply == SuccessReply("Configuration updated")
      ensures config == Merge(old(config), message)
      ensures "model" in message && message["model"] != old(config)["model"] ==> loadedModel == Some(message["model"])
      ensures !("model" in message && message["model"] != old(config)["model"]) ==> loadedModel == old(loadedModel)
      ensures old(loadedModel) == Some(old(config)["model"]) ==> loadedModel == Some(config["model"])
    {
      var previous := Get(config, "model", Null);
      MergeMessage(message);
      if "model" in message && message["model"] != previous {
        LoadModel(message["model"]);
      }
      return SuccessReply("Configuration updated");
    }

    /** The merge loop of `_handle_configure`. */
    method MergeMessage(message: Message)
      requires Valid()
      modifies this`config
      ensures Valid() && config == Merge(old(config), message)
    {
      var keys := message.Keys;
      assert MergeOn(config, message, {}) == config;
      while keys != {}
        invariant keys <= message.Keys
        invariant config == MergeOn(old(config), message, message.Keys - keys)
        invariant config.Keys == old(config).Keys
        decreases keys
      {
        var key :| key in keys;
        MergeOnStep(old(config), message, message.Keys - keys, key);
        assert (message.Keys - keys) + {key} == message.Keys - (keys - {key});
        if key != "command" && key in config {
          config := config[key := message[key]];
        }
        keys := keys - {key};
      }
    }

    /** `_handle_start_recording` */
    method HandleStartRecording(message: Message, outcome: StartOutcome) returns (reply: Message)
      requires Valid()
      modifies this`recording, this`recorder
      ensures HasProtocolStatus(reply)
      ensures old(recording) ==> (reply == ErrorReply("Already recording")
        && recording && recorder == old(recorder))
      ensures !old(recording) ==> match outcome
        case Started => reply == SuccessReply("Recording started") && recording
          && recorder == Some(RecorderFrom(config))
        case ConstructorRaises(e) => reply == ErrorReply(e) && !recording && recorder == old(recorder)
        case StreamingRaises(e) => reply == ErrorReply(e) && !recording && recorder == Some(RecorderFrom(config))
    {
      if recording {
        return ErrorReply("Already recording");
      }
      var error := StartRecording(outcome);
      if error.Some? {
        return ErrorReply(error.value);
      }
      return SuccessReply("Recording started");
    }

    /** `_start_recording`: returns the exception it raised, if any. */
    method StartRecording(outcome: StartOutcome) returns (error: Option<string>)
      requires Valid()
      modifies this`recording, this`recorder
      ensures old(recording) ==> error == None && recording && recorder == old(recorder)
      ensures !old(recording) ==> match outcome
        case Started => error == None && recording && recorder == Some(RecorderFrom(config))
        case ConstructorRaises(e) => error == Some(e) && !recording && recorder == old(recorder)
        case StreamingRaises(e) => error == Some(e) && !recording && recorder == Some(RecorderFrom(config))
    {
      if recording {
        return None;
      }
      if outcome.ConstructorRaises? {
        return Some(outcome.error);
      }
      recorder := Some(RecorderFrom(config));
      if outcome.StreamingRaises? {
        return Some(outcome.error);
      }
      recording := true;
      return None;
    }

    /** `_handle_stop_recording` */
    method HandleStopRecording(message: Message) returns (reply: Message)
      modifies this`recording, this`recorder, this`broadcasts
      ensures HasProtocolStatus(reply) && !recording
      ensures !old(recording) ==> (reply == ErrorReply("Not recording")
        && recorder == old(recorder) && broadcasts == old(broadcasts))
      ensures old(recording) ==> (reply == SuccessReply("Recording stopped")
        && recorder == None && broadcasts == old(broadcasts) + [RecordingStopped()])
    {
      if !recording {
        return ErrorReply("Not recording");
      }
      StopRecording();
      return SuccessReply("Recording stopped");
    }

    /** `_stop_recording` */
    method StopRecording()
      modifies this`recording, this`recorder, this`broadcasts
      ensures !recording
      ensures !old(recording) ==> recorder == old(recorder) && broadcasts == old(broadcasts)
      ensures old(recording) ==> recorder == None && broadcasts == old(broadcasts) + [RecordingStopped()]
    {
      if !recording {
        return;
      }
      recording := false;
      recorder := None;
      broadcasts := broadcasts + [RecordingStopped()];
    }

    /** `_handle_get_status` */
    function HandleGetStatus(message: Message): (r: Message)
      requires Valid()
      reads this`config, this`recording
      ensures r.Keys == {"status", "recording", "model", "config"}
      ensures HasProtocolStatus(r) && r["status"] == Str("success")
      ensures r["recording"] == Bool(recording) && r["model"] == config["model"] && r["config"] == Obj(config)
    {
      map["status" := Str("success"), "recording" := Bool(recording), "model" := config["model"], "config" := Obj(config)]
    }

    /** `_handle_shutdown`: the main loop ends at its next check. */
    method HandleShutdown(message: Message) returns (reply: Message)
      modifies this`running
      ensures !running && reply == SuccessReply("Shutting down")
    {
      running := false;
      return SuccessReply("Shutting down");
    }

    /** The segment loop of `_transcription_worker`. */
    method PublishSegments(segments: seq<string>, time: Value)
      modifies this`broadcasts
      ensures broadcasts == old(broadcasts) + SegmentEvents(segments, time)
    {
      ghost var texts := StrippedTexts(segments);
      var i := 0;
      while i < |segments|
        invariant 0 <= i <= |segments|
        invariant broadcasts + TextEvents(texts[i..], time) == old(broadcasts) + SegmentEvents(segments, time)
        decreases |segments| - i
      {
        StrippedTextsAt(segments, i);
        TextEventsStep(texts, i, broadcasts, time);
        var text := Strip(segments[i]);
        if text != [] {
          broadcasts := broadcasts + [TranscriptionEvent(text, time)];
        }
        i := i + 1;
      }
      assert texts[i..] == [];
    }

    /** One pass of the worker loop. */
    method WorkerTurn(t: Turn)
      modifies this`broadcasts
      ensures broadcasts == old(broadcasts) + TurnEvents(t)
    {
      if t.chunk.None? {
        return;
      }
      match t.result
      case Segments(texts, time) =>
        PublishSegments(texts, time);
      case TranscribeRaises(e) =>
        broadcasts := broadcasts + [TranscriptionError(e)];
      case SegmentsThenRaises(texts, time, e) =>
        PublishSegments(texts, time);
        broadcasts := broadcasts + [TranscriptionError(e)];
    }

    /** `_transcription_worker`: passes run while recording. */
    method TranscriptionWorker(turns: seq<Turn>)
      modifies this`broadcasts
      ensures broadcasts == old(broadcasts) + (if recording then WorkerEvents(turns) else [])
    {
      if !recording {
        assert broadcasts + [] == broadcasts;
        return;
      }
      var i := 0;
      while i < |turns|
        invariant 0 <= i <= |turns|
        invariant broadcasts + WorkerEvents(turns[i..]) == old(broadcasts) + WorkerEvents(turns)
        decreases |turns| - i
      {
        WorkerEventsStep(turns, i, broadcasts);
        WorkerTurn(turns[i]);
        i := i + 1;
      }
      assert turns[i..] == [];
    }
  }

  /** On the daemon's own events, every transcription the worker
      broadcasts reaches a streaming client as a transcription. */
  lemma {:induction false} SegmentEventsAreTranscripts(segments: seq<string>, time: Value)
    ensures forall i :: 0 <= i < |SegmentEvents(segments, time)| ==>
      Ipc.Classify(SegmentEvents(segments, time)[i]).Transcript?
  {
    SegmentEventsFacts(segments, time);
    forall i | 0 <= i < |SegmentEvents(segments, time)|
      ensures Ipc.Classify(SegmentEvents(segments, time)[i]).Transcript?
    {
      assert Sourced(segments, SegmentEvents(segments, time)[i], time);
      var k :| FromSegment(segments, k, SegmentEvents(segments, time)[i], time);
      EventsAsClassified(Strip(segments[k]), time, "");
    }
  }

  /** What one pass of the worker broadcasts: a pass without a chunk
      broadcasts nothing; every event but a failure's closing error is a
      transcription a streaming client reads as a transcript; and a failure,
      before or during the segment loop, ends the pass with exactly one error
      event, which the client ignores. */
  lemma TurnEventsFacts(t: Turn)
    ensures t.chunk.None? ==> TurnEvents(t) == []
    ensures var e := TurnEvents(t);
      forall i :: 0 <= i < |e| && (t.result.Segments? || i < |e| - 1) ==> Ipc.Classify(e[i]).Transcript?
    ensures var e := TurnEvents(t);
      t.chunk.Some? && !t.result.Segments? ==>
        e != [] && e[|e| - 1] == TranscriptionError(t.result.error)
        && Ipc.Classify(e[|e| - 1]) == Ipc.Ignored
  {
    if t.chunk.Some? {
      match t.result
      case Segments(texts, time) =>
        SegmentEventsAreTranscripts(texts, time);
      case TranscribeRaises(err) =>
        EventsAsClassified("", Null, err);
      case SegmentsThenRaises(texts, time, err) =>
        SegmentEventsAreTranscripts(texts, time);
        EventsAsClassified("", Null, err);
        var e := TurnEvents(t);
        assert e == SegmentEvents(texts, time) + [TranscriptionError(err)];
        forall i | 0 <= i < |e| - 1
          ensures Ipc.Classify(e[i]).Transcript?
        {
          assert e[i] == SegmentEvents(texts, time)[i];
        }
    }
  }
}
